// Recovery by Reconcile: what one app needs to be ensured, whatever happens to
// the others, and what the whole pass needs.
module Recovery {
  import opened Text
  import opened Names
  import opened Registry
  import opened Brokers
  import opened ServiceOps
  import opened RabbitOps
  import opened Reconciling

  // ---------------------------------------------------------------- lookalikes

  // No foreign vhost or user whose listing line can be mistaken for `n`.
  ghost predicate NoLookalike(w: World, n: string)
  {
    (VhostListed(w, n) ==> Vhost(n) in w.res) && (UserListed(w, n) ==> RabbitUser(n) in w.res)
  }

  lemma ValidNameSaysItself(name: string, target: string, field: bool)
    requires ValidName(name)
    ensures Says(name, target, field) ==> target == name
  {
    ValidNamesAreClean(name);
    TrimFixes(name);
    assert '\n' !in name && '\t' !in name;
    SplitWhole(name, '\n');
    SplitWhole(name, '\t');
  }

  // Ensuring one app's credential creates no lookalike of another app.
  lemma GentleKeepsNoLookalike(w: World, w': World, cfg: Config, app: string, n: string)
    requires Reconcilable(cfg) && NamesOnly(app, cfg) && ValidName(app) && Gentle(w, w', cfg)
    requires NoLookalike(w, n) && ValidName(n)
    ensures NoLookalike(w', n)
  {
    if VhostListed(w', n) && !Says(VHOST_BANNER, n, false) {
      var m :| m in VhostNames(w') && Says(m, n, false);
      assert Vhost(m) in w'.res;
      if Vhost(m) !in w.res {
        assert At(w', Vhost(m)) != At(w, Vhost(m));
        ValidNameSaysItself(m, n, false);
      } else {
        assert Vhost(m).name in VhostNames(w);
        assert At(w', Vhost(n)) == At(w, Vhost(n));
      }
    } else if VhostListed(w', n) {
      assert At(w', Vhost(n)) == At(w, Vhost(n));
    }
    if UserListed(w', n) && !Says(USER_BANNER, n, true) {
      var m :| m in UserNames(w') && Says(m, n, true);
      assert RabbitUser(m) in w'.res;
      if RabbitUser(m) !in w.res {
        assert At(w', RabbitUser(m)) != At(w, RabbitUser(m));
        ValidNameSaysItself(m, n, true);
      } else {
        assert RabbitUser(m).name in UserNames(w);
      }
    }
  }

  // A command of Ensure creates a vhost or a user only as the one it names.
  predicate Creates(c: Cmd, r: Res)
  {
    match r
    case Vhost(n) => c.AddVhost? && c.vhost == n
    case RabbitUser(n) => c.AddUser? && c.user == n
    case _ => true
  }

  lemma {:induction false} RunCreatesNothing(w: World, steps: seq<Step>, cfg: Config, fates: Fates, r: Res)
    requires Reconcilable(cfg) && (r.Vhost? || r.RabbitUser?) && r !in w.res
    requires forall i :: 0 <= i < |steps| ==> EnsureCmd(steps[i].cmd, cfg) && !Creates(steps[i].cmd, r)
    ensures r !in Run(w, steps, fates).w.res
    decreases |steps|
  {
    if steps != [] {
      var reply := Send(w, steps[0].cmd, fates);
      assert EnsureCmd(steps[0].cmd, cfg) && !Creates(steps[0].cmd, r);
      if reply.ok || steps[0].bestEffort {
        RunCreatesNothing(reply.w, steps[1..], cfg, fates, r);
      }
    }
  }

  // A lookalike of an app stays one through any Ensure of any app, also of
  // that app itself: what is listed is never added.
  lemma LookalikePersists(w: World, cfg: Config, app: string, n: string, fates: Fates)
    requires Reconcilable(cfg) && NamesOnly(app, cfg) && ValidName(app) && ValidName(n)
    ensures NoLookalike(EnsureConfig(w, cfg, fates).w, n) <==> NoLookalike(w, n)
  {
    var w' := EnsureConfig(w, cfg, fates).w;
    EnsureIsGentle(w, cfg, fates);
    if NoLookalike(w, n) {
      GentleKeepsNoLookalike(w, w', cfg, app, n);
    } else {
      if VhostListed(w, n) && Vhost(n) !in w.res {
        ListedStaysListed(w, w', cfg, n);
        ListedIsNotAdded(w, cfg, n, fates, Vhost(n));
      } else {
        ListedStaysListed(w, w', cfg, n);
        ListedIsNotAdded(w, cfg, n, fates, RabbitUser(n));
      }
    }
  }

  lemma ListedStaysListed(w: World, w': World, cfg: Config, n: string)
    requires Reconcilable(cfg) && Gentle(w, w', cfg)
    ensures VhostListed(w, n) ==> VhostListed(w', n)
    ensures UserListed(w, n) ==> UserListed(w', n)
  {
    if VhostListed(w, n) && !Says(VHOST_BANNER, n, false) {
      var m :| m in VhostNames(w) && Says(m, n, false);
      assert Vhost(m) in w.res;
      assert At(w', Vhost(m)) == At(w, Vhost(m));
      assert Vhost(m).name in VhostNames(w');
    }
    if UserListed(w, n) && !Says(USER_BANNER, n, true) {
      var m :| m in UserNames(w) && Says(m, n, true);
      assert RabbitUser(m) in w.res;
      assert RabbitUser(m).name in UserNames(w');
    }
  }

  lemma ListedIsNotAdded(w: World, cfg: Config, n: string, fates: Fates, r: Res)
    requires Reconcilable(cfg) && r !in w.res
    requires (r == Vhost(n) && VhostListed(w, n)) || (r == RabbitUser(n) && UserListed(w, n))
    ensures r !in EnsureConfig(w, cfg, fates).w.res
  {
    if cfg.RabbitMQConfig? && Complete(cfg) {
      EnsureAddsUnlisted(w, cfg, r);
      RunCreatesNothing(w, EnsureSteps(w, cfg), cfg, fates, r);
    } else if cfg.MongoDBConfig? {
      MongoCreatesNone(w, cfg, fates, r);
    }
  }

  lemma MongoCreatesNone(w: World, cfg: Config, fates: Fates, r: Res)
    requires cfg.MongoDBConfig? && !r.MongoUser? && r !in w.res
    ensures r !in EnsureMongo(w, cfg, fates).w.res
  {
  }

  lemma EnsureAddsUnlisted(w: World, cfg: Config, r: Res)
    requires cfg.RabbitMQConfig?
    requires (r.Vhost? && VhostListed(w, r.name)) || (r.RabbitUser? && UserListed(w, r.name))
    ensures var steps := EnsureSteps(w, cfg);
      forall i :: 0 <= i < |steps| ==> EnsureCmd(steps[i].cmd, cfg) && !Creates(steps[i].cmd, r)
  {
    EnsureStepsAreEnsureCmds(VhostListed(w, cfg.vhost), UserListed(w, cfg.username), cfg);
    StepsAddUnlisted(VhostListed(w, cfg.vhost), UserListed(w, cfg.username), cfg, r);
  }

  lemma StepsAddUnlisted(vhostListed: bool, userListed: bool, cfg: Config, r: Res)
    requires cfg.RabbitMQConfig? && (r.Vhost? || r.RabbitUser?)
    requires r == Vhost(cfg.vhost) ==> vhostListed
    requires r == RabbitUser(cfg.username) ==> userListed
    ensures var steps := [Must(ListVhosts)] + VhostSteps(vhostListed, userListed, cfg);
      forall i :: 0 <= i < |steps| ==> !Creates(steps[i].cmd, r)
  {
  }

  // --------------------------------------------------------------------- ticks

  lemma EnsureTicks(w: World, cfg: Config, fates: Fates)
    requires Reconcilable(cfg)
    ensures EnsureConfig(w, cfg, fates).w.tick >= w.tick
  {
    if cfg.RabbitMQConfig? && Complete(cfg) {
      RunTicks(w, EnsureSteps(w, cfg), fates);
    }
  }

  lemma {:induction false} ReconcileTicks(w: World, order: seq<string>, apps: Apps, fates: Fates)
    requires AllWellTyped(apps) && forall i :: 0 <= i < |order| ==> order[i] in apps
    ensures ReconcileFrom(w, order, apps, fates).w.tick >= w.tick
    decreases |order|
  {
    if order != [] {
      AppTicks(w, apps, order[0], fates);
      ReconcileTicks(ReconcileApp(w, order[0], apps[order[0]], fates).0, order[1..], apps, fates);
    }
  }

  lemma AppTicks(w: World, apps: Apps, n: string, fates: Fates)
    requires AllWellTyped(apps) && n in apps
    ensures ReconcileApp(w, n, apps[n], fates).0.tick >= w.tick
    ensures ReconcileApp(w, n, apps[n], fates).0.tick
      >= EnsureService(w, AppReport(n, [], {}), apps[n], RabbitMQ, fates).0.tick >= w.tick
  {
    var (w1, rep1) := EnsureService(w, AppReport(n, [], {}), apps[n], RabbitMQ, fates);
    if RabbitMQ in apps[n].services {
      RegisteredIntro(apps, n, RabbitMQ);
      EnsureTicks(w, apps[n].services[RabbitMQ], fates);
    }
    if MongoDB in apps[n].services {
      RegisteredIntro(apps, n, MongoDB);
      EnsureTicks(w1, apps[n].services[MongoDB], fates);
    }
  }

  // ------------------------------------------------------------------- one app

  // No app with RabbitMQ has a lookalike.
  ghost predicate NoLookalikes(w: World, apps: Apps)
  {
    forall n :: n in apps && RabbitMQ in apps[n].services ==> NoLookalike(w, n)
  }

  lemma ServicePersists(w: World, rep: AppReport, apps: Apps, n: string, svc: Svc, fates: Fates, m: string)
    requires SelfNaming(apps) && n in apps && (svc == RabbitMQ || svc == MongoDB) && ValidName(m)
    ensures NoLookalike(EnsureService(w, rep, apps[n], svc, fates).0, m) <==> NoLookalike(w, m)
  {
    if svc in apps[n].services {
      RegisteredIntro(apps, n, svc);
      assert ValidName(n) && OwnOnly(n, apps[n]) && NamesOnly(n, apps[n].services[svc]);
      LookalikePersists(w, apps[n].services[svc], n, m, fates);
    }
  }

  // Without faults of its own, a service is ensured exactly when it is not
  // RabbitMQ or no lookalike of its app is listed.
  lemma ServiceEnsuredIff(w: World, rep: AppReport, apps: Apps, n: string, svc: Svc, fates: Fates)
    requires SelfNaming(apps) && n in apps && (svc == RabbitMQ || svc == MongoDB) && svc in apps[n].services
    requires FaultFree(fates, w.tick, EnsureService(w, rep, apps[n], svc, fates).0.tick)
    ensures EnsureConfig(w, apps[n].services[svc], fates).ok <==> (svc == RabbitMQ ==> NoLookalike(w, n))
  {
    var cfg := apps[n].services[svc];
    RegisteredIntro(apps, n, svc);
    assert OwnOnly(n, apps[n]) && NamesOnly(n, cfg) && HasPassword(cfg) && ValidName(n);
    if svc == RabbitMQ {
      EnsureRabbitSucceedsIff(w, cfg, fates);
      ExistingIsListed(w, n);
    }
  }

  // The brokers when the pass comes to the k-th app of the order.
  ghost function WorldBefore(w: World, order: seq<string>, apps: Apps, fates: Fates, k: nat): World
    requires AllWellTyped(apps) && (forall i :: 0 <= i < |order| ==> order[i] in apps) && k <= |order|
    decreases k
  {
    if k == 0 then w
    else ReconcileApp(WorldBefore(w, order, apps, fates, k - 1), order[k - 1], apps[order[k - 1]], fates).0
  }

  lemma {:induction false} BeforeShifts(w: World, order: seq<string>, apps: Apps, fates: Fates, k: nat)
    requires AllWellTyped(apps) && (forall i :: 0 <= i < |order| ==> order[i] in apps) && 0 < k <= |order|
    ensures WorldBefore(w, order, apps, fates, k)
      == WorldBefore(ReconcileApp(w, order[0], apps[order[0]], fates).0, order[1..], apps, fates, k - 1)
    decreases k
  {
    if k > 1 {
      BeforeShifts(w, order, apps, fates, k - 1);
      assert order[1..][k - 2] == order[k - 1];
    }
  }

  lemma {:induction false} BeforeIsReached(w: World, order: seq<string>, apps: Apps, fates: Fates, k: nat)
    requires AllWellTyped(apps) && (forall i :: 0 <= i < |order| ==> order[i] in apps) && k < |order|
    ensures |ReconcileFrom(w, order, apps, fates).reports| == |order|
    ensures ReconcileFrom(w, order, apps, fates).reports[k]
      == ReconcileApp(WorldBefore(w, order, apps, fates, k), order[k], apps[order[k]], fates).1
    decreases k
  {
    ReportsMatch(w, order, apps, fates);
    if k > 0 {
      BeforeShifts(w, order, apps, fates, k);
      BeforeIsReached(ReconcileApp(w, order[0], apps[order[0]], fates).0, order[1..], apps, fates, k - 1);
    }
  }

  lemma {:induction false} BeforePersists(w: World, order: seq<string>, apps: Apps, fates: Fates, k: nat, m: string)
    requires SelfNaming(apps) && (forall i :: 0 <= i < |order| ==> order[i] in apps) && k <= |order| && ValidName(m)
    ensures NoLookalike(WorldBefore(w, order, apps, fates, k), m) <==> NoLookalike(w, m)
    decreases k
  {
    if k > 0 {
      BeforePersists(w, order, apps, fates, k - 1, m);
      AppPersists(WorldBefore(w, order, apps, fates, k - 1), apps, order[k - 1], fates, m);
    }
  }

  lemma AppPersists(w: World, apps: Apps, n: string, fates: Fates, m: string)
    requires SelfNaming(apps) && n in apps && ValidName(m)
    ensures NoLookalike(ReconcileApp(w, n, apps[n], fates).0, m) <==> NoLookalike(w, m)
  {
    var rep := AppReport(n, [], {});
    var (w1, rep1) := EnsureService(w, rep, apps[n], RabbitMQ, fates);
    ServicePersists(w, rep, apps, n, RabbitMQ, fates, m);
    ServicePersists(w1, rep1, apps, n, MongoDB, fates, m);
  }

  lemma AppEnsuredIff(w: World, apps: Apps, n: string, fates: Fates)
    requires SelfNaming(apps) && n in apps
    requires FaultFree(fates, w.tick, ReconcileApp(w, n, apps[n], fates).0.tick)
    ensures var failures := ReconcileApp(w, n, apps[n], fates).1.failures;
      && MongoDB !in failures
      && (failures == {} <==> (RabbitMQ in apps[n].services ==> NoLookalike(w, n)))
  {
    var rep := AppReport(n, [], {});
    var (w1, rep1) := EnsureService(w, rep, apps[n], RabbitMQ, fates);
    AppTicks(w, apps, n, fates);
    if RabbitMQ in apps[n].services {
      ServiceEnsuredIff(w, rep, apps, n, RabbitMQ, fates);
    }
    if MongoDB in apps[n].services {
      ServiceEnsuredIff(w1, rep1, apps, n, MongoDB, fates);
    }
  }

  // Fail-soft: whatever fails for the other apps, before or after, an app
  // whose own commands meet no fault has no failure and all its RabbitMQ and
  // MongoDB credentials in force at the end of the pass, unless the listings
  // of the first state already show a lookalike of it.
  lemma ReconcileIsFailSoft(w: World, order: seq<string>, apps: Apps, fates: Fates, k: nat)
    requires SelfNaming(apps) && (forall i :: 0 <= i < |order| ==> order[i] in apps) && k < |order|
    requires FaultFree(fates, WorldBefore(w, order, apps, fates, k).tick,
      WorldBefore(w, order, apps, fates, k + 1).tick)
    ensures var r := ReconcileFrom(w, order, apps, fates);
      var n := order[k];
      && |r.reports| == |order| && r.reports[k].app == n
      && (r.reports[k].failures == {} <==> (RabbitMQ in apps[n].services ==> NoLookalike(w, n)))
      && (MongoDB in apps[n].services ==> Accepts(r.w, apps[n].services[MongoDB]))
      && (RabbitMQ in apps[n].services && NoLookalike(w, n) ==> Accepts(r.w, apps[n].services[RabbitMQ]))
  {
    BeforeIsReached(w, order, apps, fates, k);
    BeforePersists(w, order, apps, fates, k, order[k]);
    AppEnsuredIff(WorldBefore(w, order, apps, fates, k), apps, order[k], fates);
    EnsuredStaysEnsured(w, order, apps, fates, k, RabbitMQ);
    EnsuredStaysEnsured(w, order, apps, fates, k, MongoDB);
    OwnConfigsAreUnopposed(apps, order[k]);
  }

  lemma OwnConfigsAreUnopposed(apps: Apps, n: string)
    requires SelfNaming(apps) && n in apps
    ensures AllWellTyped(apps)
    ensures forall s :: s in apps[n].services && (s == RabbitMQ || s == MongoDB) ==>
      Reconcilable(apps[n].services[s]) && Unopposed(apps, apps[n].services[s])
  {
    SelfNamingIsUnanimous(apps);
    forall s | s in apps[n].services && (s == RabbitMQ || s == MongoDB)
      ensures Reconcilable(apps[n].services[s]) && Unopposed(apps, apps[n].services[s])
    {
      RegisteredIntro(apps, n, s);
    }
  }

  // ------------------------------------------------------------ the whole pass

  lemma {:induction false} FaultFreeInside(w: World, order: seq<string>, apps: Apps, fates: Fates, k: nat)
    requires AllWellTyped(apps) && (forall i :: 0 <= i < |order| ==> order[i] in apps) && k <= |order|
    ensures w.tick <= WorldBefore(w, order, apps, fates, k).tick <= ReconcileFrom(w, order, apps, fates).w.tick
    decreases |order|
  {
    ReconcileTicks(w, order, apps, fates);
    if k > 0 {
      AppTicks(w, apps, order[0], fates);
      BeforeShifts(w, order, apps, fates, k);
      FaultFreeInside(ReconcileApp(w, order[0], apps[order[0]], fates).0, order[1..], apps, fates, k - 1);
    }
  }

  // What a lookalike hides is never in force: the account itself is missing.
  lemma {:induction false} HiddenIsNotInForce(w: World, order: seq<string>, apps: Apps, fates: Fates, n: string)
    requires SelfNaming(apps) && (forall i :: 0 <= i < |order| ==> order[i] in apps)
    requires n in apps && RabbitMQ in apps[n].services && !NoLookalike(w, n)
    ensures !Accepts(ReconcileFrom(w, order, apps, fates).w, apps[n].services[RabbitMQ])
    decreases |order|
  {
    assert ValidName(n) && WellTyped(apps[n]) && OwnOnly(n, apps[n]) && NamesOnly(n, apps[n].services[RabbitMQ]);
    if order != [] {
      AppPersists(w, apps, order[0], fates, n);
      HiddenIsNotInForce(ReconcileApp(w, order[0], apps[order[0]], fates).0, order[1..], apps, fates, n);
    }
  }

  lemma FailureFreePassRecovers(w: World, order: seq<string>, apps: Apps, fates: Fates)
    requires SelfNaming(apps) && forall n :: n in order <==> n in apps
    requires AllWellTyped(apps) && (forall i :: 0 <= i < |order| ==> order[i] in apps)
    requires NoFailures(ReconcileFrom(w, order, apps, fates).reports)
    ensures forall c :: Registered(apps, c) ==> Accepts(ReconcileFrom(w, order, apps, fates).w, c)
  {
    SelfNamingIsUnanimous(apps);
    ReconcileConvergesIff(w, order, apps, fates);
  }

  // Recovery: from any broker state, a pass without faults over a reachable
  // registry has no failures, and leaves every registered RabbitMQ and MongoDB
  // credential in force, exactly when no app with RabbitMQ has a lookalike.
  lemma ReconcileRecoversIff(w: World, order: seq<string>, apps: Apps, fates: Fates)
    requires SelfNaming(apps) && forall n :: n in order <==> n in apps
    requires AllWellTyped(apps) && (forall i :: 0 <= i < |order| ==> order[i] in apps)
    requires FaultFree(fates, w.tick, ReconcileFrom(w, order, apps, fates).w.tick)
    ensures var r := ReconcileFrom(w, order, apps, fates);
      && (NoFailures(r.reports) <==> NoLookalikes(w, apps))
      && ((forall c :: Registered(apps, c) ==> Accepts(r.w, c)) <==> NoLookalikes(w, apps))
  {
    var r := ReconcileFrom(w, order, apps, fates);
    ReportsMatch(w, order, apps, fates);
    forall k | 0 <= k < |order|
      ensures r.reports[k].failures == {} <==> (RabbitMQ in apps[order[k]].services ==> NoLookalike(w, order[k]))
    {
      FaultFreeInside(w, order, apps, fates, k);
      FaultFreeInside(w, order, apps, fates, k + 1);
      ReconcileIsFailSoft(w, order, apps, fates, k);
    }
    if NoFailures(r.reports) {
      forall n | n in apps && RabbitMQ in apps[n].services
        ensures NoLookalike(w, n)
      {
        var k :| 0 <= k < |order| && order[k] == n;
        assert r.reports[k].failures == {};
      }
      FailureFreePassRecovers(w, order, apps, fates);
    } else {
      var k :| 0 <= k < |r.reports| && r.reports[k].failures != {};
      HiddenIsNotInForce(w, order, apps, fates, order[k]);
      RegisteredIntro(apps, order[k], RabbitMQ);
    }
  }

  // A foreign vhost named like the app plus a trailing space is such a
  // lookalike: add_vhost is skipped and a faultless Ensure fails.
  lemma LookalikeBlocksEnsure(n: string, password: string, fates: Fates)
    requires ValidName(n) && password != "" && forall t :: fates(t) == Answered
    ensures !EnsureRabbit(World(map[Vhost(n + " ") := EMPTY], map[], 0), RabbitMQConfig(n, n, password), fates).ok
  {
    var v := n + " ";
    var w := World(map[Vhost(v) := EMPTY], map[], 0);
    ValidNamesAreClean(n);
    TrimFixes(n);
    assert '\n' !in v;
    SplitWhole(v, '\n');
    TrimSpaceSnoc(n, ' ');
    assert LineSays(Split(v, '\n')[0], n, false);
    assert Vhost(v).name in VhostNames(w) && Says(v, n, false);
    assert |v| != |n|;
    EnsureRabbitSucceedsIff(w, RabbitMQConfig(n, n, password), fates);
  }
}
