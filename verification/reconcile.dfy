// Reconcile: pushing every registered RabbitMQ and MongoDB credential back
// into brokers in any state.
module Reconciling {
  import opened Text
  import opened Names
  import opened Registry
  import opened Brokers
  import opened ServiceOps
  import opened RabbitOps

  // -------------------------------------------------------- mongodb.Ensure

  function EnsureMongo(w: World, cfg: Config, fates: Fates): Reply
    requires cfg.MongoDBConfig?
  {
    if cfg.database == "" || cfg.username == "" || cfg.password == "" then Reply(w, false)
    else Send(w, UpsertMongoUser(cfg.database, cfg.username, cfg.password), fates)
  }

  predicate Reconcilable(cfg: Config)
  {
    cfg.RabbitMQConfig? || cfg.MongoDBConfig?
  }

  ghost function EnsureConfig(w: World, cfg: Config, fates: Fates): Reply
    requires Reconcilable(cfg)
  {
    if cfg.RabbitMQConfig? then EnsureRabbit(w, cfg, fates) else EnsureMongo(w, cfg, fates)
  }

  // The commands an Ensure of `cfg` can send.
  predicate EnsureCmd(c: Cmd, cfg: Config)
    requires Reconcilable(cfg)
  {
    match c
    case ListVhosts => cfg.RabbitMQConfig?
    case ListUsers => cfg.RabbitMQConfig?
    case AddVhost(v) => cfg.RabbitMQConfig? && v == cfg.vhost
    case AddUser(u, p) => cfg.RabbitMQConfig? && u == cfg.username && p == cfg.password
    case ChangePassword(u, p) => cfg.RabbitMQConfig? && u == cfg.username && p == cfg.password
    case SetPermissions(v, u) => cfg.RabbitMQConfig? && v == cfg.vhost && u == cfg.username
    case SetUserTags(u) => cfg.RabbitMQConfig? && u == cfg.username
    case UpsertMongoUser(db, u, p) =>
      cfg.MongoDBConfig? && db == cfg.database && u == cfg.username && p == cfg.password
    case _ => false
  }

  // The resources `cfg` is about.
  function Subjects(cfg: Config): set<Res>
    requires Reconcilable(cfg)
  {
    match cfg
    case RabbitMQConfig(v, u, _) => {Vhost(v), RabbitUser(u), Permission(v, u)}
    case MongoDBConfig(db, u, _) => {MongoUser(db, u)}
  }

  // Two configurations that do not ask one account for two passwords.
  predicate Agree(c1: Config, c2: Config)
    requires Reconcilable(c1) && Reconcilable(c2)
  {
    && (c1.RabbitMQConfig? && c2.RabbitMQConfig? && c1.username == c2.username ==> c1.password == c2.password)
    && (c1.MongoDBConfig? && c2.MongoDBConfig? && c1.database == c2.database && c1.username == c2.username
        ==> c1.password == c2.password)
  }

  // What sending Ensure's commands can do: nothing outside the named
  // resources, nothing to an existing vhost, nothing to a credential that is
  // in force and agrees, and nothing at all if `cfg` itself is in force.
  ghost predicate Gentle(w: World, w': World, cfg: Config)
    requires Reconcilable(cfg)
  {
    && (forall r :: r !in Subjects(cfg) ==> At(w', r) == At(w, r))
    && (forall v :: Vhost(v) in w.res ==> At(w', Vhost(v)) == At(w, Vhost(v)))
    && (forall u :: RabbitUser(u) in w.res ==> RabbitUser(u) in w'.res)
    && (forall c2 :: Reconcilable(c2) && Agree(cfg, c2) && Accepts(w, c2) ==> Accepts(w', c2))
    && (Accepts(w, cfg) ==> w'.res == w.res)
    && w'.savedAcl == w.savedAcl
  }

  lemma SendIsGentle(w: World, c: Cmd, cfg: Config, fates: Fates)
    requires Reconcilable(cfg) && EnsureCmd(c, cfg)
    ensures Gentle(w, Send(w, c, fates).w, cfg)
  {
    var w' := Send(w, c, fates).w;
    forall c2 | Reconcilable(c2) && Agree(cfg, c2) && Accepts(w, c2)
      ensures Accepts(w', c2)
    {
      SendKeepsAgreeing(w, c, cfg, c2, fates);
    }
    if Accepts(w, cfg) {
      assert w'.res == w.res;
    }
  }

  lemma SendKeepsAgreeing(w: World, c: Cmd, cfg: Config, c2: Config, fates: Fates)
    requires Reconcilable(cfg) && EnsureCmd(c, cfg)
    requires Reconcilable(c2) && Agree(cfg, c2) && Accepts(w, c2)
    ensures Accepts(Send(w, c, fates).w, c2)
  {
  }

  lemma GentleTransitive(w0: World, w1: World, w2: World, cfg: Config)
    requires Reconcilable(cfg) && Gentle(w0, w1, cfg) && Gentle(w1, w2, cfg)
    ensures Gentle(w0, w2, cfg)
  {
    forall r | r !in Subjects(cfg)
      ensures At(w2, r) == At(w0, r)
    {
      assert At(w1, r) == At(w0, r);
    }
    forall v | Vhost(v) in w0.res
      ensures At(w2, Vhost(v)) == At(w0, Vhost(v))
    {
      assert At(w1, Vhost(v)) == At(w0, Vhost(v));
      assert Vhost(v) in w1.res;
    }
    assert Agree(cfg, cfg);
  }

  lemma {:induction false} RunIsGentle(w: World, steps: seq<Step>, cfg: Config, fates: Fates)
    requires Reconcilable(cfg)
    requires forall i :: 0 <= i < |steps| ==> EnsureCmd(steps[i].cmd, cfg)
    ensures Gentle(w, Run(w, steps, fates).w, cfg)
    decreases |steps|
  {
    if steps != [] {
      SendIsGentle(w, steps[0].cmd, cfg, fates);
      var r := Send(w, steps[0].cmd, fates);
      if r.ok || steps[0].bestEffort {
        RunIsGentle(r.w, steps[1..], cfg, fates);
        GentleTransitive(w, r.w, Run(w, steps, fates).w, cfg);
      }
    }
  }

  lemma EnsureStepsAreEnsureCmds(vhostListed: bool, userListed: bool, cfg: Config)
    requires cfg.RabbitMQConfig?
    ensures var steps := [Must(ListVhosts)] + VhostSteps(vhostListed, userListed, cfg);
      forall i :: 0 <= i < |steps| ==> EnsureCmd(steps[i].cmd, cfg)
  {
  }

  lemma EnsureIsGentle(w: World, cfg: Config, fates: Fates)
    requires Reconcilable(cfg)
    ensures Gentle(w, EnsureConfig(w, cfg, fates).w, cfg)
  {
    if cfg.RabbitMQConfig? {
      if Complete(cfg) {
        EnsureStepsAreEnsureCmds(VhostListed(w, cfg.vhost), UserListed(w, cfg.username), cfg);
        RunIsGentle(w, EnsureSteps(w, cfg), cfg, fates);
      }
    } else if cfg.database != "" && cfg.username != "" && cfg.password != "" {
      SendIsGentle(w, UpsertMongoUser(cfg.database, cfg.username, cfg.password), cfg, fates);
    }
  }

  // Success means the whole configuration is in force, from any state:
  // wiped, drifted, or left half-way by a failed Ensure.
  lemma EnsureSucceeds(w: World, cfg: Config, fates: Fates)
    requires Reconcilable(cfg) && EnsureConfig(w, cfg, fates).ok
    ensures Accepts(EnsureConfig(w, cfg, fates).w, cfg)
  {
    if cfg.RabbitMQConfig? {
      var vl, ul := VhostListed(w, cfg.vhost), UserListed(w, cfg.username);
      RunCons(w, ListVhosts, VhostSteps(vl, ul, cfg), fates);
      var a := Send(w, ListVhosts, fates).w;
      if vl {
        UserStepsSucceed(a, ul, cfg, fates);
      } else {
        RunCons(a, AddVhost(cfg.vhost), UserSteps(ul, cfg), fates);
        UserStepsSucceed(Send(a, AddVhost(cfg.vhost), fates).w, ul, cfg, fates);
      }
    }
  }

  // The user half of Ensure, command by command.
  function UserOutcome(w: World, listed: bool, cfg: Config, fates: Fates): Reply
    requires cfg.RabbitMQConfig?
  {
    var a := Send(w, ListUsers, fates);
    if !a.ok then a
    else
      var b := Send(a.w, SetUser(listed, cfg), fates);
      if !b.ok then b
      else
        var c := Send(b.w, SetPermissions(cfg.vhost, cfg.username), fates);
        if !c.ok then c else Send(c.w, SetUserTags(cfg.username), fates)
  }

  lemma UserStepsUnfold(w: World, listed: bool, cfg: Config, fates: Fates)
    requires cfg.RabbitMQConfig?
    ensures Run(w, UserSteps(listed, cfg), fates) == UserOutcome(w, listed, cfg, fates)
  {
    var setUser := SetUser(listed, cfg);
    RunCons(w, ListUsers, [Must(setUser)] + RightsSteps(cfg), fates);
    var a := Send(w, ListUsers, fates);
    RunCons(a.w, setUser, RightsSteps(cfg), fates);
    var b := Send(a.w, setUser, fates);
    RunCons(b.w, SetPermissions(cfg.vhost, cfg.username), [Must(SetUserTags(cfg.username))], fates);
    RunOne(Send(b.w, SetPermissions(cfg.vhost, cfg.username), fates).w, [Must(SetUserTags(cfg.username))], fates);
  }

  lemma UserStepsSucceed(w: World, listed: bool, cfg: Config, fates: Fates)
    requires cfg.RabbitMQConfig? && Run(w, UserSteps(listed, cfg), fates).ok
    ensures Accepts(Run(w, UserSteps(listed, cfg), fates).w, cfg)
  {
    UserStepsUnfold(w, listed, cfg, fates);
    UserOutcomeAccepted(w, listed, cfg, fates);
  }

  lemma UserOutcomeAccepted(w: World, listed: bool, cfg: Config, fates: Fates)
    requires cfg.RabbitMQConfig? && UserOutcome(w, listed, cfg, fates).ok
    ensures Accepts(UserOutcome(w, listed, cfg, fates).w, cfg)
  {
  }

  // With no fault on the way, Ensure of a complete configuration succeeds
  // exactly when the listings tell the truth: a vhost is not mistaken for
  // present, and a user is reported present if and only if it is.
  lemma EnsureRabbitSucceedsIff(w: World, cfg: Config, fates: Fates)
    requires cfg.RabbitMQConfig? && FaultFree(fates, w.tick, EnsureRabbit(w, cfg, fates).w.tick)
    ensures EnsureRabbit(w, cfg, fates).ok <==>
      && Complete(cfg)
      && (VhostListed(w, cfg.vhost) ==> Vhost(cfg.vhost) in w.res)
      && (UserListed(w, cfg.username) <==> RabbitUser(cfg.username) in w.res)
  {
    if Complete(cfg) {
      var vl, ul := VhostListed(w, cfg.vhost), UserListed(w, cfg.username);
      RunCons(w, ListVhosts, VhostSteps(vl, ul, cfg), fates);
      RunTicks(w, EnsureSteps(w, cfg), fates);
      VhostStepsOutcome(Send(w, ListVhosts, fates).w, vl, ul, cfg, UserSteps(ul, cfg), VhostSteps(vl, ul, cfg), fates);
    }
  }

  lemma VhostStepsOutcome(w: World, vl: bool, ul: bool, cfg: Config, user: seq<Step>, steps: seq<Step>, fates: Fates)
    requires cfg.RabbitMQConfig? && user == UserSteps(ul, cfg)
    requires steps == if vl then user else [Must(AddVhost(cfg.vhost))] + user
    requires FaultFree(fates, w.tick, Run(w, steps, fates).w.tick)
    ensures Run(w, steps, fates).ok <==>
      (vl ==> Vhost(cfg.vhost) in w.res) && (ul <==> RabbitUser(cfg.username) in w.res)
  {
    if vl {
      UserRunOutcome(w, ul, cfg, steps, fates);
    } else {
      AddVhostOutcome(w, ul, cfg, user, fates);
    }
  }

  lemma AddVhostOutcome(w: World, ul: bool, cfg: Config, steps: seq<Step>, fates: Fates)
    requires cfg.RabbitMQConfig? && steps == UserSteps(ul, cfg)
    requires FaultFree(fates, w.tick, Run(w, [Must(AddVhost(cfg.vhost))] + steps, fates).w.tick)
    ensures Run(w, [Must(AddVhost(cfg.vhost))] + steps, fates).ok <==> (ul <==> RabbitUser(cfg.username) in w.res)
  {
    AddVhostSucceeds(w, cfg, steps, fates);
    UserRunOutcome(Send(w, AddVhost(cfg.vhost), fates).w, ul, cfg, steps, fates);
  }

  lemma UserRunOutcome(w: World, ul: bool, cfg: Config, steps: seq<Step>, fates: Fates)
    requires cfg.RabbitMQConfig? && steps == UserSteps(ul, cfg)
    requires FaultFree(fates, w.tick, Run(w, steps, fates).w.tick)
    ensures Run(w, steps, fates).ok <==>
      Vhost(cfg.vhost) in w.res && (ul <==> RabbitUser(cfg.username) in w.res)
  {
    UserStepsUnfold(w, ul, cfg, fates);
    UserStepsOutcome(w, ul, cfg, fates);
  }

  lemma AddVhostSucceeds(w: World, cfg: Config, rest: seq<Step>, fates: Fates)
    requires cfg.RabbitMQConfig? && FaultFree(fates, w.tick, Run(w, [Must(AddVhost(cfg.vhost))] + rest, fates).w.tick)
    ensures var b := Send(w, AddVhost(cfg.vhost), fates).w;
      && Run(w, [Must(AddVhost(cfg.vhost))] + rest, fates) == Run(b, rest, fates)
      && FaultFree(fates, b.tick, Run(b, rest, fates).w.tick) && Vhost(cfg.vhost) in b.res
      && (RabbitUser(cfg.username) in b.res <==> RabbitUser(cfg.username) in w.res)
  {
    RunTicks(w, [Must(AddVhost(cfg.vhost))] + rest, fates);
    RunCons(w, AddVhost(cfg.vhost), rest, fates);
  }

  function SetUser(listed: bool, cfg: Config): Cmd
    requires cfg.RabbitMQConfig?
  {
    if listed then ChangePassword(cfg.username, cfg.password) else AddUser(cfg.username, cfg.password)
  }

  lemma SetUserOutcome(w: World, listed: bool, cfg: Config, fates: Fates)
    requires cfg.RabbitMQConfig? && fates(w.tick) == Answered
    ensures var r := Send(w, SetUser(listed, cfg), fates);
      && (r.ok <==> (listed <==> RabbitUser(cfg.username) in w.res))
      && (r.ok ==> RabbitUser(cfg.username) in r.w.res && (Vhost(cfg.vhost) in r.w.res <==> Vhost(cfg.vhost) in w.res))
  {
  }

  lemma RightsOutcome(w: World, cfg: Config, fates: Fates)
    requires cfg.RabbitMQConfig? && RabbitUser(cfg.username) in w.res
    requires fates(w.tick) == Answered
    ensures var c := Send(w, SetPermissions(cfg.vhost, cfg.username), fates);
      && (c.ok <==> Vhost(cfg.vhost) in w.res)
      && (c.ok && fates(c.w.tick) == Answered ==> Send(c.w, SetUserTags(cfg.username), fates).ok)
  {
  }

  lemma UserStepsOutcome(w: World, listed: bool, cfg: Config, fates: Fates)
    requires cfg.RabbitMQConfig? && FaultFree(fates, w.tick, UserOutcome(w, listed, cfg, fates).w.tick)
    ensures UserOutcome(w, listed, cfg, fates).ok <==>
      Vhost(cfg.vhost) in w.res && (listed <==> RabbitUser(cfg.username) in w.res)
    ensures UserOutcome(w, listed, cfg, fates).w.tick > w.tick
  {
    var a := Send(w, ListUsers, fates);
    SetUserOutcome(a.w, listed, cfg, fates);
    var b := Send(a.w, SetUser(listed, cfg), fates);
    if b.ok {
      RightsOutcome(b.w, cfg, fates);
    }
  }

  // ---------------------------------------------------------------- the loop

  datatype AppReport = AppReport(app: string, ensured: seq<Svc>, failures: set<Svc>)

  datatype Reconciled = Reconciled(w: World, reports: seq<AppReport>)

  ghost function EnsureService(w: World, rep: AppReport, entry: AppEntry, svc: Svc, fates: Fates): (World, AppReport)
    requires WellTyped(entry) && svc in {RabbitMQ, MongoDB}
  {
    if svc !in entry.services then (w, rep)
    else
      var r := EnsureConfig(w, entry.services[svc], fates);
      (r.w, if r.ok then rep.(ensured := rep.ensured + [svc]) else rep.(failures := rep.failures + {svc}))
  }

  ghost function ReconcileApp(w: World, app: string, entry: AppEntry, fates: Fates): (World, AppReport)
    requires WellTyped(entry)
  {
    var (w1, rep1) := EnsureService(w, AppReport(app, [], {}), entry, RabbitMQ, fates);
    EnsureService(w1, rep1, entry, MongoDB, fates)
  }

  predicate AllWellTyped(apps: Apps)
  {
    forall n :: n in apps ==> WellTyped(apps[n])
  }

  // One pass over `order`, whatever the order is.
  ghost function ReconcileFrom(w: World, order: seq<string>, apps: Apps, fates: Fates): Reconciled
    requires AllWellTyped(apps) && forall i :: 0 <= i < |order| ==> order[i] in apps
    decreases |order|
  {
    if order == [] then Reconciled(w, [])
    else
      var (w1, rep) := ReconcileApp(w, order[0], apps[order[0]], fates);
      var rest := ReconcileFrom(w1, order[1..], apps, fates);
      Reconciled(rest.w, [rep] + rest.reports)
  }

  // The configurations Reconcile looks after.
  predicate Registered(apps: Apps, cfg: Config)
    requires AllWellTyped(apps)
  {
    exists n, s :: n in apps && s in apps[n].services && (s == RabbitMQ || s == MongoDB) && apps[n].services[s] == cfg
  }

  lemma RegisteredIntro(apps: Apps, n: string, s: Svc)
    requires AllWellTyped(apps) && n in apps && s in apps[n].services && (s == RabbitMQ || s == MongoDB)
    ensures Registered(apps, apps[n].services[s]) && Reconcilable(apps[n].services[s])
  {
    assert Fits(s, apps[n].services[s]);
  }

  // No two registered configurations ask one account for two passwords.
  ghost predicate Unanimous(apps: Apps)
    requires AllWellTyped(apps)
  {
    forall c1, c2 :: Registered(apps, c1) && Registered(apps, c2) && Reconcilable(c1) && Reconcilable(c2)
      ==> Agree(c1, c2)
  }

  // A step that leaves alone every resource no registered configuration
  // names, every existing vhost, and every credential in force that agrees
  // with the registry; and that changes nothing if all of them are in force.
  ghost predicate Harmless(w: World, w': World, apps: Apps)
    requires AllWellTyped(apps)
  {
    && (forall r :: (forall c :: Registered(apps, c) && Reconcilable(c) ==> r !in Subjects(c)) ==>
      At(w', r) == At(w, r))
    && (forall v :: Vhost(v) in w.res ==> At(w', Vhost(v)) == At(w, Vhost(v)))
    && (forall c :: Reconcilable(c) && Unopposed(apps, c) && Accepts(w, c) ==> Accepts(w', c))
    && ((forall c :: Registered(apps, c) ==> Accepts(w, c)) ==> w'.res == w.res)
    && w'.savedAcl == w.savedAcl
  }

  ghost predicate Unopposed(apps: Apps, c: Config)
    requires AllWellTyped(apps) && Reconcilable(c)
  {
    forall c2 :: Registered(apps, c2) && Reconcilable(c2) ==> Agree(c2, c)
  }

  lemma GentleIsHarmless(w: World, w': World, apps: Apps, cfg: Config)
    requires AllWellTyped(apps) && Reconcilable(cfg) && Registered(apps, cfg) && Gentle(w, w', cfg)
    ensures Harmless(w, w', apps)
  {
  }

  lemma HarmlessTransitive(w0: World, w1: World, w2: World, apps: Apps)
    requires AllWellTyped(apps) && Harmless(w0, w1, apps) && Harmless(w1, w2, apps)
    ensures Harmless(w0, w2, apps)
  {
    forall r | forall c :: Registered(apps, c) && Reconcilable(c) ==> r !in Subjects(c)
      ensures At(w2, r) == At(w0, r)
    {
      assert At(w1, r) == At(w0, r);
    }
    forall v | Vhost(v) in w0.res
      ensures At(w2, Vhost(v)) == At(w0, Vhost(v))
    {
      assert At(w1, Vhost(v)) == At(w0, Vhost(v));
      assert Vhost(v) in w1.res;
    }
    if forall c :: Registered(apps, c) ==> Accepts(w0, c) {
      assert w1.res == w0.res;
      forall c | Registered(apps, c)
        ensures Accepts(w1, c)
      {
        SameResourcesSameVerdict(w0, w1, c);
      }
    }
  }

  lemma SameResourcesSameVerdict(w: World, w': World, c: Config)
    requires w'.res == w.res && w'.savedAcl == w.savedAcl
    ensures Accepts(w', c) <==> Accepts(w, c)
  {
  }

  lemma EnsureServiceIsHarmless(w: World, rep: AppReport, apps: Apps, n: string, svc: Svc, fates: Fates)
    requires AllWellTyped(apps) && n in apps && (svc == RabbitMQ || svc == MongoDB)
    ensures Harmless(w, EnsureService(w, rep, apps[n], svc, fates).0, apps)
  {
    if svc in apps[n].services {
      var cfg := apps[n].services[svc];
      RegisteredIntro(apps, n, svc);
      EnsureIsGentle(w, cfg, fates);
      GentleIsHarmless(w, EnsureConfig(w, cfg, fates).w, apps, cfg);
    }
  }

  lemma ReconcileAppIsHarmless(w: World, apps: Apps, n: string, fates: Fates)
    requires AllWellTyped(apps) && n in apps
    ensures Harmless(w, ReconcileApp(w, n, apps[n], fates).0, apps)
  {
    var rep := AppReport(n, [], {});
    var (w1, rep1) := EnsureService(w, rep, apps[n], RabbitMQ, fates);
    EnsureServiceIsHarmless(w, rep, apps, n, RabbitMQ, fates);
    EnsureServiceIsHarmless(w1, rep1, apps, n, MongoDB, fates);
    HarmlessTransitive(w, w1, ReconcileApp(w, n, apps[n], fates).0, apps);
  }

  // Whatever fails on the way, Reconcile touches nothing that is not in the
  // registry.
  lemma {:induction false} ReconcileIsHarmless(w: World, order: seq<string>, apps: Apps, fates: Fates)
    requires AllWellTyped(apps) && forall i :: 0 <= i < |order| ==> order[i] in apps
    ensures Harmless(w, ReconcileFrom(w, order, apps, fates).w, apps)
    decreases |order|
  {
    if order != [] {
      ReconcileAppIsHarmless(w, apps, order[0], fates);
      var w1 := ReconcileApp(w, order[0], apps[order[0]], fates).0;
      ReconcileIsHarmless(w1, order[1..], apps, fates);
      HarmlessTransitive(w, w1, ReconcileFrom(w, order, apps, fates).w, apps);
    }
  }

  // In particular, a run over a registry that is fully in force changes
  // nothing, even with faults.
  lemma SecondRunChangesNothing(w: World, order: seq<string>, apps: Apps, fates: Fates)
    requires AllWellTyped(apps) && forall i :: 0 <= i < |order| ==> order[i] in apps
    requires forall c :: Registered(apps, c) ==> Accepts(w, c)
    ensures ReconcileFrom(w, order, apps, fates).w.res == w.res
  {
    ReconcileIsHarmless(w, order, apps, fates);
  }

  predicate Ensured(rep: AppReport, svc: Svc) { svc in rep.ensured }

  lemma ReconcileAppEnsures(w: World, apps: Apps, n: string, svc: Svc, fates: Fates)
    requires AllWellTyped(apps) && n in apps && (svc == RabbitMQ || svc == MongoDB)
    ensures var (w', rep) := ReconcileApp(w, n, apps[n], fates);
      && rep.app == n
      && (Ensured(rep, svc) || svc in rep.failures <==> svc in apps[n].services)
      && (Ensured(rep, svc) ==> svc !in rep.failures)
      && (Ensured(rep, svc) && Unopposed(apps, apps[n].services[svc]) ==> Accepts(w', apps[n].services[svc]))
  {
    var rep0 := AppReport(n, [], {});
    var (w1, rep1) := EnsureService(w, rep0, apps[n], RabbitMQ, fates);
    var (w2, rep2) := EnsureService(w1, rep1, apps[n], MongoDB, fates);
    if svc in apps[n].services {
      RegisteredIntro(apps, n, svc);
      var cfg := apps[n].services[svc];
      var before := if svc == RabbitMQ then w else w1;
      if EnsureConfig(before, cfg, fates).ok {
        EnsureSucceeds(before, cfg, fates);
        if svc == RabbitMQ {
          EnsureServiceIsHarmless(w1, rep1, apps, n, MongoDB, fates);
        }
      }
    }
  }

  // A service reported as ensured is in force when the whole pass
  // is over, whatever failed before or after it, provided no registered
  // configuration asks for another password of the same account.
  lemma {:induction false} EnsuredStaysEnsured(
      w: World, order: seq<string>, apps: Apps, fates: Fates, k: nat, svc: Svc)
    requires AllWellTyped(apps) && forall i :: 0 <= i < |order| ==> order[i] in apps
    requires k < |order| && (svc == RabbitMQ || svc == MongoDB)
    ensures var r := ReconcileFrom(w, order, apps, fates);
      && |r.reports| == |order| && r.reports[k].app == order[k]
      && (Ensured(r.reports[k], svc) || svc in r.reports[k].failures <==> svc in apps[order[k]].services)
      && (Ensured(r.reports[k], svc) && Unopposed(apps, apps[order[k]].services[svc])
          ==> Accepts(r.w, apps[order[k]].services[svc]))
    decreases |order|
  {
    ReportsMatch(w, order, apps, fates);
    var (w1, rep) := ReconcileApp(w, order[0], apps[order[0]], fates);
    if k == 0 {
      ReconcileAppEnsures(w, apps, order[0], svc, fates);
      ReconcileIsHarmless(w1, order[1..], apps, fates);
      if svc in apps[order[0]].services {
        RegisteredIntro(apps, order[0], svc);
      }
    } else {
      EnsuredStaysEnsured(w1, order[1..], apps, fates, k - 1, svc);
    }
  }

  lemma {:induction false} ReportsMatch(w: World, order: seq<string>, apps: Apps, fates: Fates)
    requires AllWellTyped(apps) && forall i :: 0 <= i < |order| ==> order[i] in apps
    ensures |ReconcileFrom(w, order, apps, fates).reports| == |order|
    decreases |order|
  {
    if order != [] {
      ReportsMatch(ReconcileApp(w, order[0], apps[order[0]], fates).0, order[1..], apps, fates);
    }
  }

  ghost predicate NoFailures(reports: seq<AppReport>)
  {
    forall i :: 0 <= i < |reports| ==> reports[i].failures == {}
  }

  // For any registry and any broker state: after a pass without failures all
  // registered credentials are valid at once, if and only if the registry
  // does not contradict itself.
  lemma ReconcileConvergesIff(w: World, order: seq<string>, apps: Apps, fates: Fates)
    requires AllWellTyped(apps) && forall n :: n in order <==> n in apps
    requires NoFailures(ReconcileFrom(w, order, apps, fates).reports)
    ensures (forall c :: Registered(apps, c) ==> Accepts(ReconcileFrom(w, order, apps, fates).w, c))
      <==> Unanimous(apps)
  {
    var w' := ReconcileFrom(w, order, apps, fates).w;
    if Unanimous(apps) {
      forall c | Registered(apps, c)
        ensures Accepts(w', c)
      {
        var n, s :| n in apps && s in apps[n].services && (s == RabbitMQ || s == MongoDB) && apps[n].services[s] == c;
        RegisteredIntro(apps, n, s);
        var k :| 0 <= k < |order| && order[k] == n;
        EnsuredStaysEnsured(w, order, apps, fates, k, s);
        assert Unopposed(apps, c);
      }
    }
    if forall c :: Registered(apps, c) ==> Accepts(w', c) {
      forall c1, c2 | Registered(apps, c1) && Registered(apps, c2) && Reconcilable(c1) && Reconcilable(c2)
        ensures Agree(c1, c2)
      {
        AcceptedTogetherAgree(w', c1, c2);
      }
    }
  }

  lemma AcceptedTogetherAgree(w: World, c1: Config, c2: Config)
    requires Reconcilable(c1) && Reconcilable(c2) && Accepts(w, c1) && Accepts(w, c2)
    ensures Agree(c1, c2)
  {
    if c1.RabbitMQConfig? && c2.RabbitMQConfig? && c1.username == c2.username {
      assert c1.password in {c2.password};
    }
    if c1.MongoDBConfig? && c2.MongoDBConfig? && c1.database == c2.database && c1.username == c2.username {
      assert c1.password in {c2.password};
    }
  }

  // ------------------------------------------------- the registry's own kind

  // What every reachable registry looks like: valid names, configurations
  // that name only their app, non-empty passwords.
  predicate SelfNaming(apps: Apps)
  {
    forall n :: n in apps ==> ValidName(n) && WellTyped(apps[n]) && OwnOnly(n, apps[n])
  }

  predicate OwnOnly(n: string, entry: AppEntry)
  {
    forall s :: s in entry.services ==> NamesOnly(n, entry.services[s]) && HasPassword(entry.services[s])
  }

  predicate HasPassword(cfg: Config)
  {
    match cfg
    case PostgresConfig(_, _, p) => p != ""
    case RedisConfig(_, p, _) => p != ""
    case RabbitMQConfig(_, _, p) => p != ""
    case AIStorConfig(_, _, p, _) => p != ""
    case MongoDBConfig(_, _, p) => p != ""
    case SignozConfig(_, _) => true
  }

  lemma SelfNamingIsUnanimous(apps: Apps)
    requires SelfNaming(apps)
    ensures AllWellTyped(apps) && Unanimous(apps)
  {
    forall c1, c2 | Registered(apps, c1) && Registered(apps, c2) && Reconcilable(c1) && Reconcilable(c2)
      ensures Agree(c1, c2)
    {
      var n1, s1 :| n1 in apps && s1 in apps[n1].services && (s1 == RabbitMQ || s1 == MongoDB)
        && apps[n1].services[s1] == c1;
      var n2, s2 :| n2 in apps && s2 in apps[n2].services && (s2 == RabbitMQ || s2 == MongoDB)
        && apps[n2].services[s2] == c2;
      assert NamesOnly(n1, c1) && NamesOnly(n2, c2) && Fits(s1, c1) && Fits(s2, c2);
    }
  }
}
