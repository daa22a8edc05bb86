// Redis isolation over whole runs: when every plain app stays confined to its
// own keys, and the run that shows what it takes.
module Confinement {
  import opened Text
  import opened Names
  import opened Registry
  import opened Brokers
  import opened ServiceOps
  import opened Reconciling
  import opened EngineSpec
  import opened EngineInvariant
  import opened Removal
  import opened Rejections
  import opened Runs

  // The ACL user's patterns stay inside the app's namespace.
  ghost predicate Narrow(v: Resource, app: string)
  {
    forall k :: Reaches(v, k) ==> Namespace(app) <= k
  }

  // So do the live user and the one in the ACL file, if there are any.
  ghost predicate NarrowAt(w: World, n: string)
  {
    (AclUser(n) in w.res ==> Narrow(w.res[AclUser(n)], n)) && (n in w.savedAcl ==> Narrow(w.savedAcl[n], n))
  }

  // Registered with access to every key.
  predicate FullEntry(entry: AppEntry)
  {
    Redis in entry.services && entry.services[Redis].RedisConfig? && entry.services[Redis].prefix == ""
  }

  predicate FullApp(disk: Apps, n: string) { n in disk && FullEntry(disk[n]) }

  ghost predicate NarrowBut(w: World, exempt: set<string>)
  {
    forall n :: ValidName(n) && n !in exempt ==> NarrowAt(w, n)
  }

  function FullApps(disk: Apps): set<string>
  {
    set n | n in disk && FullApp(disk, n)
  }

  // Only an app registered with full access has an ACL user that reaches
  // beyond its own keys.
  ghost predicate Tidy(st: State)
  {
    NarrowBut(st.world, FullApps(st.disk))
  }

  // In a tidy state every plain app in force is confined.
  lemma TidyConfines(st: State, app: string)
    requires Inv(st) && Tidy(st) && app in st.disk && Redis in st.disk[app].services && !FullApp(st.disk, app)
    ensures Confined(st.world, app)
  {
    assert ValidName(app) && WellTyped(st.disk[app]) && OwnOnly(app, st.disk[app]);
    assert Accepts(st.world, st.disk[app].services[Redis]);
  }

  // ------------------------------------------------------------- command runs

  function PatternsOf(w: World, app: string): set<string>
  {
    if AclUser(app) in w.res then w.res[AclUser(app)].grants else {}
  }

  lemma WidePatternReaches(v: Resource, app: string)
    requires KeyPattern(app, true) in v.grants
    ensures Reaches(v, "") && !(Namespace(app) <= "")
  {
    assert Tokens("*") == [Star] + Tokens("*"[1..]) == [Star];
    StarMatchesAll("");
    assert KeyPattern(app, true)[1..] == "*";
  }

  // The app's live ACL user has every key.
  predicate LiveWide(w: World, app: string) { KeyPattern(app, true) in PatternsOf(w, app) }

  lemma LiveWideIsNotNarrow(w: World, app: string)
    requires LiveWide(w, app)
    ensures !NarrowAt(w, app)
  {
    WidePatternReaches(w.res[AclUser(app)], app);
  }

  // A command that gives no user outside `exempt` more than its own namespace.
  predicate Modest(c: Cmd, exempt: set<string>)
  {
    c.AclSetUser? && c.user !in exempt ==> ValidName(c.user) && c.pattern == KeyPattern(c.user, false)
  }

  lemma SetUserStaysNarrow(v: Resource, app: string, password: string)
    requires Narrow(v, app) && ValidName(app)
    ensures Narrow(v.(secrets := v.secrets + {password}, grants := v.grants + {KeyPattern(app, false)}), app)
  {
    var u := v.(secrets := v.secrets + {password}, grants := v.grants + {KeyPattern(app, false)});
    forall k | Reaches(u, k)
      ensures Namespace(app) <= k
    {
      var p :| p in u.grants && |p| > 0 && p[0] == '~' && Glob(p[1..], k);
      FreshPatternReaches(app, k);
      if p in v.grants {
        assert Reaches(v, k);
      }
    }
  }

  // Every other command leaves the live users alone or takes one away.
  lemma OtherCommandsKeepAcl(w: World, c: Cmd, fates: Fates)
    requires !c.AclSetUser?
    ensures var w' := Send(w, c, fates).w;
      && (forall n :: AclUser(n) in w'.res ==> AclUser(n) in w.res && w'.res[AclUser(n)] == w.res[AclUser(n)])
      && (w'.savedAcl == w.savedAcl || (c.AclSave? && w'.savedAcl == CurrentAcl(w)))
  {
  }

  lemma SendStaysNarrow(w: World, c: Cmd, fates: Fates, exempt: set<string>)
    requires NarrowBut(w, exempt) && (TakesEffect(fates(w.tick)) ==> Modest(c, exempt))
    ensures NarrowBut(Send(w, c, fates).w, exempt)
  {
    if c.AclSetUser? && TakesEffect(fates(w.tick)) {
      SetUserSendStaysNarrow(w, c, fates, exempt);
    } else if !c.AclSetUser? {
      OtherCommandsKeepAcl(w, c, fates);
    }
  }

  lemma SetUserSendStaysNarrow(w: World, c: Cmd, fates: Fates, exempt: set<string>)
    requires c.AclSetUser? && NarrowBut(w, exempt) && Modest(c, exempt)
    ensures NarrowBut(Send(w, c, fates).w, exempt)
  {
    if c.user !in exempt {
      SetUserStaysNarrow(if AclUser(c.user) in w.res then w.res[AclUser(c.user)] else EMPTY, c.user, c.password);
    }
  }

  lemma {:induction false} RunStaysNarrow(w: World, steps: seq<Step>, fates: Fates, exempt: set<string>)
    requires NarrowBut(w, exempt) && forall i :: 0 <= i < |steps| ==> Modest(steps[i].cmd, exempt)
    ensures NarrowBut(Run(w, steps, fates).w, exempt)
    decreases |steps|
  {
    if steps != [] {
      assert Modest(steps[0].cmd, exempt);
      SendStaysNarrow(w, steps[0].cmd, fates, exempt);
      var r := Send(w, steps[0].cmd, fates);
      if r.ok || steps[0].bestEffort {
        RunStaysNarrow(r.w, steps[1..], fates, exempt);
      }
    }
  }

  lemma ProvisionStaysNarrow(
      w: World, svc: Svc, app: string, pw: string, opts: ProvisionOptions, fates: Fates, exempt: set<string>)
    requires NarrowBut(w, exempt)
    requires opts.fullAccess && svc == Redis && TakesEffect(fates(w.tick)) ==> app in exempt
    ensures NarrowBut(Provision(w, svc, app, pw, opts, fates).w, exempt)
  {
    if svc == Redis && ValidName(app) {
      var a := Send(w, AclSetUser(app, pw, KeyPattern(app, opts.fullAccess)), fates);
      SendStaysNarrow(w, AclSetUser(app, pw, KeyPattern(app, opts.fullAccess)), fates, exempt);
      SendStaysNarrow(a.w, AclSave, fates, exempt);
      RedisRun(w, app, pw, opts, fates);
    } else if ValidName(app) {
      RunStaysNarrow(w, ProvisionSteps(svc, app, pw, opts), fates, exempt);
    }
  }

  lemma TeardownStaysNarrow(w: World, svc: Svc, app: string, fates: Fates, exempt: set<string>)
    requires NarrowBut(w, exempt)
    ensures NarrowBut(Teardown(w, svc, app, fates).w, exempt)
  {
    RunStaysNarrow(w, TeardownSteps(svc, app), fates, exempt);
  }

  // ----------------------------------------------------------------- the loops

  // Some SETUSER sent at these ticks takes effect.
  ghost predicate Widens(fates: Fates, ticks: set<nat>)
  {
    exists t :: t in ticks && TakesEffect(fates(t))
  }

  // Some Redis Provision begun at these ticks reports success.
  ghost predicate Enrols(fates: Fates, ticks: set<nat>)
  {
    exists t :: t in ticks && RedisReports(fates, t)
  }

  lemma {:induction false} LoopStaysNarrow(
      p: Progress, svcs: seq<Svc>, app: string, opts: ProvisionOptions, env: Env, exempt: set<string>)
    requires NarrowBut(p.world, exempt)
    requires opts.fullAccess && Widens(env.fates, RedisTicks(p, svcs, app, opts, env)) ==> app in exempt
    ensures NarrowBut(ProvisionLoop(p, svcs, app, opts, env).world, exempt)
    decreases |svcs|
  {
    if svcs != [] {
      var p1 := ProvisionOne(p, svcs[0], app, opts, env);
      assert svcs[0] == Redis ==> p.world.tick in RedisTicks(p, svcs, app, opts, env);
      assert RedisTicks(p1, svcs[1..], app, opts, env) <= RedisTicks(p, svcs, app, opts, env);
      ProvisionStaysNarrow(p.world, svcs[0], app, env.passwords(p.world.tick), opts, env.fates, exempt);
      LoopStaysNarrow(p1, svcs[1..], app, opts, env, exempt);
    }
  }

  // With full access, a SETUSER that takes effect gives the app every key for
  // the rest of the loop.
  lemma {:induction false} LoopWidens(p: Progress, svcs: seq<Svc>, app: string, opts: ProvisionOptions, env: Env)
    requires ValidName(app) && opts.fullAccess
    requires Widens(env.fates, RedisTicks(p, svcs, app, opts, env)) || LiveWide(p.world, app)
    ensures LiveWide(ProvisionLoop(p, svcs, app, opts, env).world, app)
    decreases |svcs|
  {
    if svcs != [] {
      if LiveWide(p.world, app) || (svcs[0] == Redis && TakesEffect(env.fates(p.world.tick))) {
        OneWidens(p, svcs[0], app, opts, env);
      }
      LoopWidens(ProvisionOne(p, svcs[0], app, opts, env), svcs[1..], app, opts, env);
    }
  }

  lemma OneWidens(p: Progress, svc: Svc, app: string, opts: ProvisionOptions, env: Env)
    requires ValidName(app) && opts.fullAccess
    requires LiveWide(p.world, app) || (svc == Redis && TakesEffect(env.fates(p.world.tick)))
    ensures LiveWide(ProvisionOne(p, svc, app, opts, env).world, app)
  {
    var pw := env.passwords(p.world.tick);
    if svc == Redis {
      RedisRun(p.world, app, pw, opts, env.fates);
    } else {
      ProvisionIsFramed(p.world, svc, app, pw, opts, env.fates);
      assert At(ProvisionOne(p, svc, app, opts, env).world, AclUser(app)) == At(p.world, AclUser(app));
    }
  }

  // Asked for full access, the entry gets it exactly when it is reported.
  lemma {:induction false} LoopEnrols(p: Progress, svcs: seq<Svc>, app: string, opts: ProvisionOptions, env: Env)
    requires ValidName(app) && opts.fullAccess && (Redis in p.entry.services ==> FullEntry(p.entry))
    ensures FullEntry(ProvisionLoop(p, svcs, app, opts, env).entry) <==>
      FullEntry(p.entry) || Enrols(env.fates, RedisTicks(p, svcs, app, opts, env))
    decreases |svcs|
  {
    if svcs != [] {
      var p1 := ProvisionOne(p, svcs[0], app, opts, env);
      OneEnrols(p, svcs[0], app, opts, env);
      LoopEnrols(p1, svcs[1..], app, opts, env);
      assert RedisTicks(p, svcs, app, opts, env)
        == (if svcs[0] == Redis then {p.world.tick} else {}) + RedisTicks(p1, svcs[1..], app, opts, env);
      EnrolsUnion(
        env.fates, if svcs[0] == Redis then {p.world.tick} else {}, RedisTicks(p1, svcs[1..], app, opts, env));
      assert Enrols(env.fates, if svcs[0] == Redis then {p.world.tick} else {})
        <==> svcs[0] == Redis && RedisReports(env.fates, p.world.tick);
    }
  }

  lemma EnrolsUnion(fates: Fates, a: set<nat>, b: set<nat>)
    ensures Enrols(fates, a + b) <==> Enrols(fates, a) || Enrols(fates, b)
  {
  }

  lemma OneEnrols(p: Progress, svc: Svc, app: string, opts: ProvisionOptions, env: Env)
    requires ValidName(app) && opts.fullAccess && (Redis in p.entry.services ==> FullEntry(p.entry))
    ensures var q := ProvisionOne(p, svc, app, opts, env);
      && (FullEntry(q.entry) <==> FullEntry(p.entry) || (svc == Redis && RedisReports(env.fates, p.world.tick)))
      && (Redis in q.entry.services ==> FullEntry(q.entry))
  {
    if svc == Redis {
      RedisIsAcceptedIff(p.world, app, env.passwords(p.world.tick), opts, env.fates);
    }
  }

  // Not asked, it gets none.
  lemma {:induction false} LoopEnrolsNone(p: Progress, svcs: seq<Svc>, app: string, opts: ProvisionOptions, env: Env)
    requires !opts.fullAccess
    ensures FullEntry(ProvisionLoop(p, svcs, app, opts, env).entry) ==> FullEntry(p.entry)
    decreases |svcs|
  {
    if svcs != [] {
      LoopEnrolsNone(ProvisionOne(p, svcs[0], app, opts, env), svcs[1..], app, opts, env);
    }
  }

  // The targets of a full-access setup whose SETUSER takes effect.
  ghost function Widened(st: State, ts: seq<Target>, svcs: seq<Svc>, env: Env): set<string>
    decreases |ts|
  {
    if ts == [] then {}
    else
      (if Widens(env.fates, SetupTicks(st, ts[0], svcs, true, env)) then {ts[0].name} else {})
      + if env.saves(st.saves) then Widened(AfterSetup(st, ts[0], svcs, true, env), ts[1..], svcs, env) else {}
  }

  // The full-access apps of the registry when the setup is over: a saved target
  // is one exactly when its Redis Provision reports success.
  ghost function Enrolled(st: State, ts: seq<Target>, svcs: seq<Svc>, env: Env, now: set<string>): set<string>
    decreases |ts|
  {
    if ts == [] || !env.saves(st.saves) then now
    else
      Enrolled(AfterSetup(st, ts[0], svcs, true, env), ts[1..], svcs, env,
        if Enrols(env.fates, SetupTicks(st, ts[0], svcs, true, env)) then now + {ts[0].name} else now - {ts[0].name})
  }

  lemma {:induction false} EnrolledAreFull(st: State, ts: seq<Target>, svcs: seq<Svc>, env: Env)
    requires forall i :: 0 <= i < |ts| ==> ValidName(ts[i].name)
    ensures FullApps(SetupRun(st, ts, svcs, true, env).st.disk) == Enrolled(st, ts, svcs, env, FullApps(st.disk))
    decreases |ts|
  {
    if ts != [] && env.saves(st.saves) {
      TargetEnrols(st, ts[0], svcs, env);
      EnrolledAreFull(AfterSetup(st, ts[0], svcs, true, env), ts[1..], svcs, env);
    }
  }

  lemma TargetEnrols(st: State, t: Target, svcs: seq<Svc>, env: Env)
    requires ValidName(t.name) && env.saves(st.saves)
    ensures FullApps(AfterSetup(st, t, svcs, true, env).disk)
      == if Enrols(env.fates, SetupTicks(st, t, svcs, true, env)) then FullApps(st.disk) + {t.name}
         else FullApps(st.disk) - {t.name}
  {
    LoopEnrols(Progress(st.world, FreshEntry(t, env.clock(st.world.tick)), [], {}), svcs, t.name,
      SetupOptions(t, true, env), env);
  }

  lemma {:induction false} WidenedAreWide(st: State, ts: seq<Target>, svcs: seq<Svc>, env: Env, n: string)
    requires forall i :: 0 <= i < |ts| ==> ValidName(ts[i].name)
    requires n in Widened(st, ts, svcs, env) || LiveWide(st.world, n)
    ensures LiveWide(SetupRun(st, ts, svcs, true, env).st.world, n)
    decreases |ts|
  {
    if ts != [] {
      var t := ts[0];
      var p0 := Progress(st.world, FreshEntry(t, env.clock(st.world.tick)), [], {});
      if n == t.name {
        if Widens(env.fates, SetupTicks(st, t, svcs, true, env)) || LiveWide(st.world, n) {
          LoopWidens(p0, svcs, n, SetupOptions(t, true, env), env);
        }
      } else {
        LoopKeepsOthers(p0, svcs, t.name, SetupOptions(t, true, env), env);
        assert forall s :: !Touches(s, t.name, AclUser(n));
        assert At(SetupProgress(st, t, svcs, true, env).world, AclUser(n)) == At(st.world, AclUser(n));
      }
      if env.saves(st.saves) {
        WidenedAreWide(AfterSetup(st, t, svcs, true, env), ts[1..], svcs, env, n);
      }
    }
  }

  lemma {:induction false} SetupStaysNarrow(
      st: State, ts: seq<Target>, svcs: seq<Svc>, full: bool, env: Env, exempt: set<string>)
    requires NarrowBut(st.world, exempt) && (full ==> Widened(st, ts, svcs, env) <= exempt)
    ensures NarrowBut(SetupRun(st, ts, svcs, full, env).st.world, exempt)
    decreases |ts|
  {
    if ts != [] {
      var t := ts[0];
      LoopStaysNarrow(Progress(st.world, FreshEntry(t, env.clock(st.world.tick)), [], {}), svcs, t.name,
        SetupOptions(t, full, env), env, exempt);
      if env.saves(st.saves) {
        SetupStaysNarrow(AfterSetup(st, t, svcs, full, env), ts[1..], svcs, full, env, exempt);
      }
    }
  }

  // A plain setup of new targets leaves the full-access apps as they were.
  lemma {:induction false} PlainSetupEnrolsNone(st: State, ts: seq<Target>, svcs: seq<Svc>, env: Env)
    ensures var end := SetupRun(st, ts, svcs, false, env).st.disk;
      && FullApps(end) <= FullApps(st.disk)
      && forall n :: n in FullApps(st.disk) && (forall i :: 0 <= i < |ts| ==> ts[i].name != n) ==> n in FullApps(end)
    decreases |ts|
  {
    if ts != [] {
      var t := ts[0];
      LoopEnrolsNone(Progress(st.world, FreshEntry(t, env.clock(st.world.tick)), [], {}), svcs, t.name,
        SetupOptions(t, false, env), env);
      if env.saves(st.saves) {
        var st1 := AfterSetup(st, t, svcs, false, env);
        PlainSetupEnrolsNone(st1, ts[1..], svcs, env);
        forall n | n in FullApps(st.disk) && (forall i :: 0 <= i < |ts| ==> ts[i].name != n)
          ensures n in FullApps(SetupRun(st, ts, svcs, false, env).st.disk)
        {
          assert ts[0].name != n && n in FullApps(st1.disk);
          assert forall i :: 0 <= i < |ts[1..]| ==> ts[1..][i].name == ts[i + 1].name;
        }
      }
    }
  }

  lemma {:induction false} AddStaysNarrow(
      st: State, ts: seq<Target>, svcs: seq<Svc>, env: Env, exempt: set<string>)
    requires AllKnown(st.disk, ts) && NarrowBut(st.world, exempt)
    ensures var end := AddRun(st, ts, svcs, env).st;
      NarrowBut(end.world, exempt) && FullApps(end.disk) == FullApps(st.disk)
    decreases |ts|
  {
    if ts != [] {
      var t := ts[0];
      var e0 := st.disk[t.name];
      if Missing(e0, svcs) == [] {
        AddStaysNarrow(st, ts[1..], svcs, env, exempt);
      } else {
        AddedEntryIsNoFuller(st, t, svcs, env, exempt);
        var p := AddProgress(st, t, svcs, env);
        var st1 := EngineSpec.Saved(st.(world := p.world), st.disk[t.name := p.entry], env);
        assert FullApps(st1.disk) == FullApps(st.disk);
        if env.saves(st.saves) {
          AddStaysNarrow(st1, ts[1..], svcs, env, exempt);
        }
      }
    }
  }

  lemma AddedEntryIsNoFuller(st: State, t: Target, svcs: seq<Svc>, env: Env, exempt: set<string>)
    requires t.name in st.disk && NarrowBut(st.world, exempt)
    ensures var p := AddProgress(st, t, svcs, env);
      NarrowBut(p.world, exempt) && (FullApp(st.disk[t.name := p.entry], t.name) <==> FullApp(st.disk, t.name))
  {
    var e0 := st.disk[t.name];
    var p0, opts := Progress(st.world, e0, [], {}), SetupOptions(t, false, env);
    LoopStaysNarrow(p0, Missing(e0, svcs), t.name, opts, env, exempt);
    LoopEnrolsNone(p0, Missing(e0, svcs), t.name, opts, env);
    AddSplitsRequest(st, t, svcs, env);
  }

  lemma {:induction false} TeardownLoopStaysNarrow(
      w: World, entry: AppEntry, svcs: seq<Svc>, app: string, env: Env, exempt: set<string>)
    requires NarrowBut(w, exempt)
    ensures NarrowBut(TeardownLoop(w, entry, svcs, app, env), exempt)
    decreases |svcs|
  {
    if svcs != [] {
      TeardownStaysNarrow(w, svcs[0], app, env.fates, exempt);
      var w1 := if svcs[0] in entry.services then Teardown(w, svcs[0], app, env.fates).w else w;
      TeardownLoopStaysNarrow(w1, entry, svcs[1..], app, env, exempt);
    }
  }

  // ------------------------------------------------------------------- events

  // The tick at which RemoveApp comes to the app's Redis.
  function RedisTeardownAt(st: State, app: string, env: Env): nat
    requires app in st.disk
  {
    if Postgres in st.disk[app].services then Teardown(st.world, Postgres, app, env.fates).w.tick else st.world.tick
  }

  // The teardown begun at tick `t` deletes the ACL user, in memory and in the
  // file: DELUSER is answered, and the commands before and after it do not stop
  // that.
  predicate TakesUser(fates: Fates, t: nat)
  {
    (fates(t).Answered? || fates(t).Rejected?) && fates(t + 1).Answered? && TakesEffect(fates(t + 2))
  }

  // The fates under which an event leaves no full-access ACL user behind. Only
  // two kinds of event are at risk. Every target of a full-access setup whose
  // SETUSER takes effect must be saved with a reported Redis; and a full-access
  // app that leaves the registry must have its ACL user deleted.
  ghost predicate EndsClean(st: State, e: Event, env: Env)
  {
    match e
    case SetupEvent(app, services, envs, tag, full) =>
      var ts := SetupTargets(app, envs, tag);
      full && SetupError(st, app, services, ts, env) == None ==>
        var svcs := Resolve(services).value;
        Widened(st, ts, svcs, env) <= Enrolled(st, ts, svcs, env, FullApps(st.disk))
    case RemoveEvent(app) =>
      RemoveError(st, app) == None && FullApp(st.disk, app) && env.saves(st.saves) ==>
        TakesUser(env.fates, RedisTeardownAt(st, app, env))
    case _ => true
  }

  lemma SetupStaysTidyIff(st: State, e: Event, env: Env)
    requires e.SetupEvent? && Tidy(st)
    ensures Tidy(Apply(st, e, env)) <==> EndsClean(st, e, env)
  {
    var ts := SetupTargets(e.app, e.envs, e.tag);
    if SetupError(st, e.app, e.services, ts, env) == None {
      NoTargetsError(st.disk, ts);
      if e.full {
        FullSetupStaysTidyIff(st, ts, Resolve(e.services).value, env);
      } else {
        SetupStaysNarrow(st, ts, Resolve(e.services).value, false, env, FullApps(st.disk));
        PlainSetupEnrolsNone(st, ts, Resolve(e.services).value, env);
      }
    }
  }

  lemma FullSetupStaysTidyIff(st: State, ts: seq<Target>, svcs: seq<Svc>, env: Env)
    requires Tidy(st) && forall i :: 0 <= i < |ts| ==> ValidName(ts[i].name) && ts[i].name !in st.disk
    ensures Tidy(SetupRun(st, ts, svcs, true, env).st)
      <==> Widened(st, ts, svcs, env) <= Enrolled(st, ts, svcs, env, FullApps(st.disk))
  {
    var end := SetupRun(st, ts, svcs, true, env).st;
    var wide := Widened(st, ts, svcs, env);
    EnrolledAreFull(st, ts, svcs, env);
    forall n | FullApp(st.disk, n)
      ensures FullApp(end.disk, n)
    {
      OldFullAppStays(st, ts, svcs, env, n);
    }
    SetupStaysNarrow(st, ts, svcs, true, env, FullApps(st.disk) + wide);
    if Tidy(end) {
      forall n | n in wide
        ensures n in FullApps(end.disk)
      {
        WidenedAreTargets(st, ts, svcs, env, n);
        WidenedAreWide(st, ts, svcs, env, n);
        LiveWideIsNotNarrow(end.world, n);
      }
    }
  }

  lemma {:induction false} WidenedAreTargets(st: State, ts: seq<Target>, svcs: seq<Svc>, env: Env, n: string)
    requires n in Widened(st, ts, svcs, env) && forall i :: 0 <= i < |ts| ==> ValidName(ts[i].name)
    ensures ValidName(n)
    decreases |ts|
  {
    if n != ts[0].name {
      WidenedAreTargets(AfterSetup(st, ts[0], svcs, true, env), ts[1..], svcs, env, n);
    }
  }

  lemma {:induction false} OldFullAppStays(st: State, ts: seq<Target>, svcs: seq<Svc>, env: Env, n: string)
    requires FullApp(st.disk, n) && forall i :: 0 <= i < |ts| ==> ts[i].name != n
    ensures FullApp(SetupRun(st, ts, svcs, true, env).st.disk, n)
    decreases |ts|
  {
    if ts != [] && env.saves(st.saves) {
      assert ts[0].name != n && forall i :: 0 <= i < |ts[1..]| ==> ts[1..][i].name == ts[i + 1].name;
      OldFullAppStays(AfterSetup(st, ts[0], svcs, true, env), ts[1..], svcs, env, n);
    }
  }

  // A full-access ACL user, in memory and in the file.
  predicate WideUser(w: World, app: string)
  {
    LiveWide(w, app) && app in w.savedAcl && KeyPattern(app, true) in w.savedAcl[app].grants
  }

  // The Redis teardown begun in `w` against one.
  lemma TeardownTakesUserIff(w: World, app: string, fates: Fates)
    requires ValidName(app) && WideUser(w, app)
    ensures NarrowAt(Teardown(w, Redis, app, fates).w, app) <==> TakesUser(fates, w.tick)
  {
    StepsTakeUserIff(w, app, TeardownSteps(Redis, app), fates);
  }

  lemma StepsTakeUserIff(w: World, app: string, s: seq<Step>, fates: Fates)
    requires |s| == 3 && s[0].cmd.DeleteKeys? && !s[0].bestEffort && s[1..] == [Must(AclDelUser(app)), Must(AclSave)]
    requires WideUser(w, app)
    ensures NarrowAt(Run(w, s, fates).w, app) <==> TakesUser(fates, w.tick)
  {
    MustStep(w, s, fates);
    DeletedKeysKeepAcl(w, s[0].cmd, fates, app);
    var a := Send(w, s[0].cmd, fates);
    if a.ok {
      UserThenFileGo(a.w, app, s[1..], fates);
    } else {
      LiveWideIsNotNarrow(a.w, app);
    }
  }

  lemma DeletedKeysKeepAcl(w: World, c: Cmd, fates: Fates, app: string)
    requires c.DeleteKeys?
    ensures var a := Send(w, c, fates);
      && a.w.tick == w.tick + 1 && (WideUser(w, app) ==> WideUser(a.w, app))
      && (a.ok <==> fates(w.tick).Answered? || fates(w.tick).Rejected?)
  {
  }

  lemma UserThenFileGo(w: World, app: string, s: seq<Step>, fates: Fates)
    requires s == [Must(AclDelUser(app)), Must(AclSave)]
    requires WideUser(w, app)
    ensures NarrowAt(Run(w, s, fates).w, app) <==> fates(w.tick).Answered? && TakesEffect(fates(w.tick + 1))
  {
    MustStep(w, s, fates);
    var a := Send(w, AclDelUser(app), fates);
    WidePatternReaches(w.savedAcl[app], app);
    if a.ok {
      RunOne(a.w, s[1..], fates);
      assert app in CurrentAcl(a.w) <==> AclUser(app) in a.w.res;
      if !fates(w.tick).Answered? {
        LiveWideIsNotNarrow(Send(a.w, AclSave, fates).w, app);
      }
    }
  }

  lemma RemoveStaysTidyIff(st: State, app: string, env: Env)
    requires Inv(st) && Tidy(st)
    ensures Tidy(Remove(st, app, env).st) <==> EndsClean(st, RemoveEvent(app), env)
  {
    if RemoveError(st, app) == None {
      var end := Remove(st, app, env).st;
      TeardownLoopStaysNarrow(st.world, st.disk[app], CATALOG, app, env, FullApps(st.disk));
      if env.saves(st.saves) {
        assert FullApps(end.disk) == FullApps(st.disk) - {app};
        if FullApp(st.disk, app) {
          FullAppIsTornDownIff(st, app, env);
        }
      }
    }
  }

  lemma FullAppIsTornDownIff(st: State, app: string, env: Env)
    requires Inv(st) && FullApp(st.disk, app)
    ensures NarrowAt(TeardownLoop(st.world, st.disk[app], CATALOG, app, env), app)
      <==> TakesUser(env.fates, RedisTeardownAt(st, app, env))
  {
    FullAppIsWide(st, app);
    assert Redis !in CATALOG[2..];
    WideUserIsTornDownIff(st.world, st.disk[app], CATALOG, app, env);
  }

  lemma WideUserIsTornDownIff(w: World, entry: AppEntry, svcs: seq<Svc>, app: string, env: Env)
    requires ValidName(app) && WideUser(w, app) && Redis in entry.services
    requires |svcs| >= 2 && svcs[0] == Postgres && svcs[1] == Redis && Redis !in svcs[2..]
    ensures NarrowAt(TeardownLoop(w, entry, svcs, app, env), app)
      <==> TakesUser(env.fates, AfterService(w, entry, Postgres, app, env).tick)
  {
    var w1 := AfterService(w, entry, Postgres, app, env);
    var w2 := AfterService(w1, entry, Redis, app, env);
    OtherTeardownSparesAcl(w, entry, Postgres, app, env);
    SameAclSameReach(w, w1, app);
    TeardownTakesUserIff(w1, app, env.fates);
    CatalogLoop(w, entry, svcs, app, env);
    LoopSparesAcl(w2, entry, svcs[2..], app, env);
    SameAclSameReach(w2, TeardownLoop(w2, entry, svcs[2..], app, env), app);
  }

  lemma CatalogLoop(w: World, entry: AppEntry, svcs: seq<Svc>, app: string, env: Env)
    requires |svcs| >= 2 && svcs[0] == Postgres && svcs[1] == Redis
    ensures TeardownLoop(w, entry, svcs, app, env)
      == var w1 := AfterService(w, entry, Postgres, app, env);
         TeardownLoop(AfterService(w1, entry, Redis, app, env), entry, svcs[2..], app, env)
  {
    assert svcs[1..][1..] == svcs[2..];
  }

  lemma SameAclSameReach(w: World, w': World, app: string)
    requires At(w', AclUser(app)) == At(w, AclUser(app)) && w'.savedAcl == w.savedAcl
    ensures NarrowAt(w', app) <==> NarrowAt(w, app)
    ensures WideUser(w', app) <==> WideUser(w, app)
  {
  }

  lemma FullAppIsWide(st: State, app: string)
    requires Inv(st) && FullApp(st.disk, app)
    ensures ValidName(app) && WideUser(st.world, app)
  {
    assert WellTyped(st.disk[app]) && OwnOnly(app, st.disk[app]) && Accepts(st.world, st.disk[app].services[Redis]);
    assert "~" + "" + "*" == KeyPattern(app, true);
  }

  lemma OtherTeardownSparesAcl(w: World, entry: AppEntry, svc: Svc, app: string, env: Env)
    requires svc != Redis
    ensures var w' := AfterService(w, entry, svc, app, env);
      At(w', AclUser(app)) == At(w, AclUser(app)) && w'.savedAcl == w.savedAcl
  {
    TeardownIsFramed(w, svc, app, env.fates);
  }

  lemma {:induction false} LoopSparesAcl(w: World, entry: AppEntry, svcs: seq<Svc>, app: string, env: Env)
    requires Redis !in svcs
    ensures var w' := TeardownLoop(w, entry, svcs, app, env);
      At(w', AclUser(app)) == At(w, AclUser(app)) && w'.savedAcl == w.savedAcl
    decreases |svcs|
  {
    if svcs != [] {
      OtherTeardownSparesAcl(w, entry, svcs[0], app, env);
      LoopSparesAcl(AfterService(w, entry, svcs[0], app, env), entry, svcs[1..], app, env);
    }
  }

  lemma DetachKeepsFull(st: State, app: string, services: seq<string>, env: Env)
    ensures FullApps(Detach(st, app, services, env).st.disk) == FullApps(st.disk)
    ensures Detach(st, app, services, env).st.world == st.world
  {
    var disk := Detach(st, app, services, env).st.disk;
    forall n
      ensures FullApp(disk, n) <==> FullApp(st.disk, n)
    {
    }
  }

  lemma ReconcileKeepsAcl(st: State, order: seq<string>, env: Env)
    requires SelfNaming(st.disk)
    ensures var after := Apply(st, ReconcileEvent(order), env);
      && after.disk == st.disk && after.world.savedAcl == st.world.savedAcl
      && forall n :: At(after.world, AclUser(n)) == At(st.world, AclUser(n))
  {
    if AllWellTyped(st.disk) && forall n :: n in order <==> n in st.disk {
      assert forall i :: 0 <= i < |order| ==> order[i] in order;
      PassKeepsAcl(st.world, order, st.disk, env.fates);
    }
  }

  lemma PassKeepsAcl(w: World, order: seq<string>, apps: Apps, fates: Fates)
    requires AllWellTyped(apps) && forall i :: 0 <= i < |order| ==> order[i] in apps
    ensures var w' := ReconcileFrom(w, order, apps, fates).w;
      w'.savedAcl == w.savedAcl && forall n :: At(w', AclUser(n)) == At(w, AclUser(n))
  {
    ReconcileIsHarmless(w, order, apps, fates);
    forall n
      ensures forall c :: Registered(apps, c) && Reconcilable(c) ==> AclUser(n) !in Subjects(c)
    {
    }
  }

  lemma RestartStaysNarrow(w: World, exempt: set<string>)
    requires NarrowBut(w, exempt)
    ensures NarrowBut(Restarted(w), exempt)
  {
    forall n | ValidName(n) && n !in exempt
      ensures NarrowAt(Restarted(w), n)
    {
      if AclUser(n) in Restarted(w).res {
        assert n in w.savedAcl && Restarted(w).res[AclUser(n)] == w.savedAcl[n];
      }
    }
  }

  // One event keeps the state tidy exactly when it ends cleanly, which is a
  // matter of what becomes of its Redis commands and its saves.
  lemma EventStaysTidyIff(st: State, e: Event, env: Env)
    requires Inv(st) && Tidy(st)
    ensures Tidy(Apply(st, e, env)) <==> EndsClean(st, e, env)
  {
    match e
    case SetupEvent(app, services, envs, tag, full) => SetupStaysTidyIff(st, e, env);
    case RemoveEvent(app) => RemoveStaysTidyIff(st, app, env);
    case _ => OtherEventStaysTidy(st, e, env);
  }

  lemma AddStaysTidy(st: State, app: string, services: seq<string>, envs: seq<string>, tag: string, env: Env)
    requires SelfNaming(st.disk) && Tidy(st)
    ensures Tidy(Add(st, app, services, envs, tag, env).st)
  {
    var ts := AddTargets(st.disk, app, envs, tag);
    if AddError(st, app, services, ts, env) == None {
      AddStaysNarrow(st, ts, Resolve(services).value, env, FullApps(st.disk));
    }
  }

  lemma OtherEventStaysTidy(st: State, e: Event, env: Env)
    requires SelfNaming(st.disk) && Tidy(st) && !e.SetupEvent? && !e.RemoveEvent?
    ensures Tidy(Apply(st, e, env))
  {
    match e
    case AddEvent(app, services, envs, tag) => AddStaysTidy(st, app, services, envs, tag, env);
    case DetachEvent(app, services) => DetachKeepsFull(st, app, services, env);
    case ReconcileEvent(order) =>
      ReconcileKeepsAcl(st, order, env);
      SameAclStaysTidy(st, Apply(st, e, env));
    case ClientWrite(app, r, data) => SameAclStaysTidy(st, Apply(st, e, env));
    case RedisRestart => RestartStaysNarrow(st.world, FullApps(st.disk));
    case Wipe(svc) => WipeStaysNarrow(st.world, svc, FullApps(st.disk));
  }

  // No user that is still there has other rules.
  lemma SameAclStaysTidy(st: State, after: State)
    requires Tidy(st) && after.disk == st.disk && after.world.savedAcl == st.world.savedAcl
    requires forall n :: At(after.world, AclUser(n)).Some? ==>
      At(st.world, AclUser(n)).Some?
      && At(after.world, AclUser(n)).value.grants == At(st.world, AclUser(n)).value.grants
    ensures Tidy(after)
  {
    forall n | ValidName(n) && n !in FullApps(st.disk)
      ensures NarrowAt(after.world, n)
    {
      assert NarrowAt(st.world, n);
      if AclUser(n) in after.world.res {
        assert At(after.world, AclUser(n)).Some?;
        SameGrantsReach(st.world.res[AclUser(n)], after.world.res[AclUser(n)], n);
      }
    }
  }

  lemma SameGrantsReach(v: Resource, after: Resource, app: string)
    requires after.grants == v.grants && Narrow(v, app)
    ensures Narrow(after, app)
  {
    forall k | Reaches(after, k)
      ensures Namespace(app) <= k
    {
      assert Reaches(v, k);
    }
  }

  lemma WipeStaysNarrow(w: World, svc: Svc, exempt: set<string>)
    requires NarrowBut(w, exempt)
    ensures NarrowBut(Wiped(w, svc), exempt)
  {
    forall n | ValidName(n) && n !in exempt
      ensures NarrowAt(Wiped(w, svc), n)
    {
      assert NarrowAt(w, n);
    }
  }

  // --------------------------------------------------------------------- runs

  ghost predicate AllEndClean(st: State, es: seq<Event>, env: Env)
    decreases |es|
  {
    es != [] ==> EndsClean(st, es[0], env) && AllEndClean(Apply(st, es[0], env), es[1..], env)
  }

  ghost predicate AllTidy(st: State, es: seq<Event>, env: Env)
    decreases |es|
  {
    Tidy(st) && (es != [] ==> AllTidy(Apply(st, es[0], env), es[1..], env))
  }

  // An orderly run passes through tidy states only, exactly when each of its
  // events ends cleanly.
  lemma {:induction false} RunsStayTidyIff(st: State, es: seq<Event>, env: Env)
    requires Inv(st) && GoodEnv(env) && AllOrderly(st, es, env) && Tidy(st)
    ensures AllTidy(st, es, env) <==> AllEndClean(st, es, env)
    decreases |es|
  {
    if es != [] {
      EventKeepsInv(st, es[0], env);
      EventStaysTidyIff(st, es[0], env);
      if Tidy(Apply(st, es[0], env)) {
        RunsStayTidyIff(Apply(st, es[0], env), es[1..], env);
      }
    }
  }

  // In such a run every plain app is confined to its own keys.
  lemma {:induction false} RunsStayConfined(st: State, es: seq<Event>, env: Env)
    requires Inv(st) && GoodEnv(env) && AllOrderly(st, es, env) && Tidy(st) && AllEndClean(st, es, env)
    ensures var end := RunAll(st, es, env);
      && Inv(end) && Tidy(end)
      && forall n :: n in end.disk && Redis in end.disk[n].services && !FullApp(end.disk, n) ==> Confined(end.world, n)
    decreases |es|
  {
    if es == [] {
      forall n | n in st.disk && Redis in st.disk[n].services && !FullApp(st.disk, n)
        ensures Confined(st.world, n)
      {
        TidyConfines(st, n);
      }
    } else {
      EventKeepsInv(st, es[0], env);
      EventStaysTidyIff(st, es[0], env);
      RunsStayConfined(Apply(st, es[0], env), es[1..], env);
    }
  }

  // No event of the run is about the app, and no full-access app writes to
  // Redis.
  ghost predicate AllElsewhere(st: State, es: seq<Event>, env: Env, other: string)
    decreases |es|
  {
    es != [] ==>
      && !IsAbout(st, es[0], other)
      && (es[0].ClientWrite? && es[0].res.RedisKey? ==> !FullApp(st.disk, es[0].app))
      && AllElsewhere(Apply(st, es[0], env), es[1..], env, other)
  }

  // Isolation over whole runs: an app keeps its registry entry, its accounts
  // and its data through any such run of the others.
  lemma {:induction false} RunsLeaveOthersAlone(st: State, es: seq<Event>, env: Env, other: string)
    requires Inv(st) && GoodEnv(env) && AllOrderly(st, es, env) && Tidy(st) && AllEndClean(st, es, env)
    requires ValidName(other) && AllElsewhere(st, es, env, other)
    ensures Untouched(st, RunAll(st, es, env), other)
    decreases |es|
  {
    if es != [] {
      var mid := Apply(st, es[0], env);
      EventLeavesOther(st, es[0], env, other);
      EventKeepsInv(st, es[0], env);
      EventStaysTidyIff(st, es[0], env);
      RunsLeaveOthersAlone(mid, es[1..], env, other);
      UntouchedTwice(st, mid, RunAll(st, es, env), other);
    }
  }

  lemma EventLeavesOther(st: State, e: Event, env: Env, other: string)
    requires Inv(st) && Tidy(st) && ValidName(other) && !IsAbout(st, e, other)
    requires e.ClientWrite? && e.res.RedisKey? ==> !FullApp(st.disk, e.app)
    ensures Untouched(st, Apply(st, e, env), other)
  {
    if e.ClientWrite? && !MayWrite(st, e.app, e.res) {
      assert Apply(st, e, env) == st;
    } else {
      if e.ClientWrite? && e.res.RedisKey? {
        TidyConfines(st, e.app);
      }
      EventLeavesOthersAlone(st, e, env, other);
    }
  }

  lemma UntouchedTwice(a: State, b: State, c: State, other: string)
    requires Untouched(a, b, other) && Untouched(b, c, other)
    ensures Untouched(a, c, other)
  {
    forall r | Own(other, r)
      ensures At(c.world, r) == At(a.world, r)
    {
      assert At(b.world, r) == At(a.world, r);
    }
    assert Own(other, AclUser(other));
  }
}
