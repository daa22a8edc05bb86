// What every run of the engine keeps: registry entries name only their own
// app, their credentials are accepted, and a step on one app leaves the
// credentials and the data of the others alone.
module EngineInvariant {
  import opened Text
  import opened Names
  import opened Registry
  import opened Brokers
  import opened ServiceOps
  import opened Reconciling
  import opened EngineSpec

  ghost predicate CredentialsHold(disk: Apps, w: World)
  {
    forall n, s :: n in disk && s in disk[n].services ==> Accepts(w, disk[n].services[s])
  }

  ghost predicate Inv(st: State)
  {
    SelfNaming(st.disk) && CredentialsHold(st.disk, st.world)
  }

  // ------------------------------------------------------- one target at a time

  ghost predicate EntryHolds(w: World, app: string, entry: AppEntry)
  {
    WellTyped(entry) && OwnOnly(app, entry) && forall s :: s in entry.services ==> Accepts(w, entry.services[s])
  }

  ghost predicate KeepsOthers(w: World, w': World, app: string)
  {
    forall other, s, cfg :: other != app && Fits(s, cfg) && NamesOnly(other, cfg) && Accepts(w, cfg)
      ==> Accepts(w', cfg)
  }

  // Nothing but the resources of `app` changed; in the ACL file another user
  // keeps his entry or gets his current one.
  ghost predicate StaysInside(w: World, w': World, app: string)
  {
    (forall r :: (forall s :: !Touches(s, app, r)) ==> At(w', r) == At(w, r)) && SavedFramed(w, w', app)
  }

  lemma ProvisionKeepsOthers(w: World, svc: Svc, app: string, pw: string, opts: ProvisionOptions, fates: Fates)
    ensures var w' := Provision(w, svc, app, pw, opts, fates).w; KeepsOthers(w, w', app) && StaysInside(w, w', app)
  {
    var w' := Provision(w, svc, app, pw, opts, fates).w;
    ProvisionIsFramed(w, svc, app, pw, opts, fates);
    forall other, s, cfg | other != app && Fits(s, cfg) && NamesOnly(other, cfg) && Accepts(w, cfg)
      ensures Accepts(w', cfg)
    {
      FramedKeepsCredential(w, w', svc, app, other, s, cfg);
    }
  }

  lemma TeardownKeepsOthers(w: World, svc: Svc, app: string, fates: Fates)
    ensures var w' := Teardown(w, svc, app, fates).w; KeepsOthers(w, w', app) && StaysInside(w, w', app)
  {
    var w' := Teardown(w, svc, app, fates).w;
    TeardownIsFramed(w, svc, app, fates);
    forall other, s, cfg | other != app && Fits(s, cfg) && NamesOnly(other, cfg) && Accepts(w, cfg)
      ensures Accepts(w', cfg)
    {
      FramedKeepsCredential(w, w', svc, app, other, s, cfg);
    }
  }

  // Provisioning a service leaves a credential of the app in force, unless it
  // is AIStor's own.
  lemma ProvisionKeepsOwn(
      w: World, svc: Svc, app: string, pw: string, opts: ProvisionOptions, fates: Fates, s: Svc, cfg: Config)
    requires ValidName(app) && Fits(s, cfg) && NamesOnly(app, cfg) && Accepts(w, cfg)
    requires svc == s ==> svc != AIStor
    ensures Accepts(Provision(w, svc, app, pw, opts, fates).w, cfg)
  {
    if svc == s {
      ReprovisionKeepsCredential(w, svc, app, pw, opts, fates, cfg);
    } else {
      ProvisionIsFramed(w, svc, app, pw, opts, fates);
      FramedKeepsCredential(w, Provision(w, svc, app, pw, opts, fates).w, svc, app, app, s, cfg);
    }
  }

  // An entry in force stays in force through a step that does not set up an
  // AIStor it already has.
  lemma StepKeepsHeld(p: Progress, svc: Svc, app: string, opts: ProvisionOptions, env: Env, held: AppEntry)
    requires ValidName(app) && EntryHolds(p.world, app, held) && (svc == AIStor ==> svc !in held.services)
    ensures EntryHolds(ProvisionOne(p, svc, app, opts, env).world, app, held)
  {
    forall s | s in held.services
      ensures Accepts(ProvisionOne(p, svc, app, opts, env).world, held.services[s])
    {
      ProvisionKeepsOwn(p.world, svc, app, env.passwords(p.world.tick), opts, env.fates, s, held.services[s]);
    }
  }

  lemma OneKeeps(p: Progress, svc: Svc, app: string, opts: ProvisionOptions, env: Env)
    requires GoodEnv(env) && ValidName(app) && EntryHolds(p.world, app, p.entry)
    requires svc == AIStor ==> svc !in p.entry.services
    requires svc == Redis ==> Truthful(env.fates, p.world.tick)
    ensures var q := ProvisionOne(p, svc, app, opts, env);
      EntryHolds(q.world, app, q.entry) && KeepsOthers(p.world, q.world, app) && StaysInside(p.world, q.world, app)
  {
    var pw := env.passwords(p.world.tick);
    ProvisionKeepsOthers(p.world, svc, app, pw, opts, env.fates);
    StepKeepsHeld(p, svc, app, opts, env, p.entry);
    var r := Provision(p.world, svc, app, pw, opts, env.fates);
    if r.config.Some? {
      ProvisionIsAccepted(p.world, svc, app, pw, opts, env.fates);
      assert HasPassword(r.config.value);
    }
  }

  lemma {:induction false} LoopKeeps(p: Progress, svcs: seq<Svc>, app: string, opts: ProvisionOptions, env: Env)
    requires GoodEnv(env) && ValidName(app) && EntryHolds(p.world, app, p.entry)
    requires AtMostOnce(svcs, AIStor) && (AIStor in svcs ==> AIStor !in p.entry.services)
    requires ToldTruth(env.fates, RedisTicks(p, svcs, app, opts, env))
    ensures var q := ProvisionLoop(p, svcs, app, opts, env);
      EntryHolds(q.world, app, q.entry) && KeepsOthers(p.world, q.world, app) && StaysInside(p.world, q.world, app)
    decreases |svcs|
  {
    if svcs != [] {
      OneKeeps(p, svcs[0], app, opts, env);
      var p1 := ProvisionOne(p, svcs[0], app, opts, env);
      RestIsAllowed(p, svcs, app, opts, env);
      LoopKeeps(p1, svcs[1..], app, opts, env);
      InsideTwice(p.world, p1.world, ProvisionLoop(p1, svcs[1..], app, opts, env).world, app);
    }
  }

  lemma {:induction false} LoopKeepsOthers(p: Progress, svcs: seq<Svc>, app: string, opts: ProvisionOptions, env: Env)
    ensures var q := ProvisionLoop(p, svcs, app, opts, env);
      KeepsOthers(p.world, q.world, app) && StaysInside(p.world, q.world, app)
    decreases |svcs|
  {
    if svcs != [] {
      ProvisionKeepsOthers(p.world, svcs[0], app, env.passwords(p.world.tick), opts, env.fates);
      var p1 := ProvisionOne(p, svcs[0], app, opts, env);
      LoopKeepsOthers(p1, svcs[1..], app, opts, env);
      InsideTwice(p.world, p1.world, ProvisionLoop(p1, svcs[1..], app, opts, env).world, app);
    }
  }

  lemma RestIsAllowed(p: Progress, svcs: seq<Svc>, app: string, opts: ProvisionOptions, env: Env)
    requires svcs != [] && AtMostOnce(svcs, AIStor) && (AIStor in svcs ==> AIStor !in p.entry.services)
    ensures AtMostOnce(svcs[1..], AIStor)
    ensures AIStor in svcs[1..] ==> AIStor !in ProvisionOne(p, svcs[0], app, opts, env).entry.services
  {
    if AIStor in svcs[1..] {
      var j :| 1 <= j < |svcs| && svcs[j] == AIStor;
      assert svcs[0] != AIStor;
    }
  }

  lemma InsideTwice(w: World, w1: World, w2: World, app: string)
    requires StaysInside(w, w1, app) && StaysInside(w1, w2, app)
    ensures StaysInside(w, w2, app)
  {
    forall r | forall s :: !Touches(s, app, r)
      ensures At(w2, r) == At(w, r)
    {
      assert At(w1, r) == At(w, r);
    }
    forall n | n != app
      ensures At(w1, AclUser(n)) == At(w, AclUser(n))
    {
      assert forall s :: !Touches(s, app, AclUser(n));
    }
  }

  // Whatever the loop makes of the entry at hand, another entry of the app
  // stays in force if the request spares its AIStor.
  lemma {:induction false} LoopKeepsHeld(
      p: Progress, svcs: seq<Svc>, app: string, opts: ProvisionOptions, env: Env, held: AppEntry)
    requires ValidName(app) && EntryHolds(p.world, app, held) && (AIStor in svcs ==> AIStor !in held.services)
    ensures EntryHolds(ProvisionLoop(p, svcs, app, opts, env).world, app, held)
    decreases |svcs|
  {
    if svcs != [] {
      StepKeepsHeld(p, svcs[0], app, opts, env, held);
      LoopKeepsHeld(ProvisionOne(p, svcs[0], app, opts, env), svcs[1..], app, opts, env, held);
    }
  }

  lemma {:induction false} TeardownLoopKeeps(w: World, entry: AppEntry, svcs: seq<Svc>, app: string, env: Env)
    ensures var w' := TeardownLoop(w, entry, svcs, app, env); KeepsOthers(w, w', app) && StaysInside(w, w', app)
    decreases |svcs|
  {
    if svcs != [] {
      TeardownKeepsOthers(w, svcs[0], app, env.fates);
      var w1 := if svcs[0] in entry.services then Teardown(w, svcs[0], app, env.fates).w else w;
      TeardownLoopKeeps(w1, entry, svcs[1..], app, env);
      InsideTwice(w, w1, TeardownLoop(w1, entry, svcs[1..], app, env), app);
    }
  }

  // The registry with one entry replaced still satisfies the invariant.
  lemma EntryReplaced(disk: Apps, w: World, w': World, app: string, entry: AppEntry)
    requires SelfNaming(disk) && CredentialsHold(disk, w) && ValidName(app)
    requires KeepsOthers(w, w', app) && EntryHolds(w', app, entry)
    ensures SelfNaming(disk[app := entry]) && CredentialsHold(disk[app := entry], w')
  {
    forall n, s | n in disk && n != app && s in disk[n].services
      ensures Accepts(w', disk[n].services[s])
    {
      assert ValidName(n) && WellTyped(disk[n]) && OwnOnly(n, disk[n]);
      assert Fits(s, disk[n].services[s]) && NamesOnly(n, disk[n].services[s]);
    }
  }

  // So does the old registry beside the new brokers.
  lemma OldEntryStays(disk: Apps, w: World, w': World, app: string)
    requires SelfNaming(disk) && CredentialsHold(disk, w)
    requires KeepsOthers(w, w', app) && (app in disk ==> EntryHolds(w', app, disk[app]))
    ensures CredentialsHold(disk, w')
  {
    forall n, s | n in disk && n != app && s in disk[n].services
      ensures Accepts(w', disk[n].services[s])
    {
      assert ValidName(n) && WellTyped(disk[n]) && OwnOnly(n, disk[n]);
      assert Fits(s, disk[n].services[s]) && NamesOnly(n, disk[n].services[s]);
    }
  }

  // --------------------------------------------------------------- operations

  // Targets SetupApp can write one after the other: names that are new each
  // time, or a request without AIStor.
  predicate Writable(disk: Apps, ts: seq<Target>, svcs: seq<Svc>)
  {
    && (forall i :: 0 <= i < |ts| ==> ValidName(ts[i].name))
    && (AIStor in svcs ==> forall i :: 0 <= i < |ts| ==> ts[i].name !in disk)
    && (AIStor in svcs ==> forall i, j :: 0 <= i < j < |ts| ==> ts[i].name != ts[j].name)
  }

  lemma {:induction false} SetupRunKeepsInv(st: State, ts: seq<Target>, svcs: seq<Svc>, full: bool, env: Env)
    requires Inv(st) && GoodEnv(env) && AtMostOnce(svcs, AIStor) && Writable(st.disk, ts, svcs)
    requires SetupTruthful(st, ts, svcs, full, env)
    ensures Inv(SetupRun(st, ts, svcs, full, env).st)
    decreases |ts|
  {
    if ts != [] {
      var t := ts[0];
      SetupTargetKeepsInv(st, t, svcs, full, env);
      if env.saves(st.saves) {
        var st1 := AfterSetup(st, t, svcs, full, env);
        forall i | 0 <= i < |ts| - 1 && AIStor in svcs
          ensures ts[1..][i].name !in st1.disk
        {
          assert ts[0].name != ts[i + 1].name;
        }
        SetupRunKeepsInv(st1, ts[1..], svcs, full, env);
      }
    }
  }

  // One target, saved or not; what an unsaved one was told does not matter.
  lemma SetupTargetKeepsInv(st: State, t: Target, svcs: seq<Svc>, full: bool, env: Env)
    requires Inv(st) && GoodEnv(env) && AtMostOnce(svcs, AIStor) && ValidName(t.name)
    requires AIStor in svcs ==> t.name !in st.disk
    requires env.saves(st.saves) ==> ToldTruth(env.fates, SetupTicks(st, t, svcs, full, env))
    ensures Inv(AfterSetup(st, t, svcs, full, env))
  {
    var p0 := Progress(st.world, FreshEntry(t, env.clock(st.world.tick)), [], {});
    var p := SetupProgress(st, t, svcs, full, env);
    if env.saves(st.saves) {
      LoopKeeps(p0, svcs, t.name, SetupOptions(t, full, env), env);
      EntryReplaced(st.disk, st.world, p.world, t.name, p.entry);
    } else {
      LoopKeepsOthers(p0, svcs, t.name, SetupOptions(t, full, env), env);
      if t.name in st.disk {
        assert WellTyped(st.disk[t.name]) && OwnOnly(t.name, st.disk[t.name]);
        LoopKeepsHeld(p0, svcs, t.name, SetupOptions(t, full, env), env, st.disk[t.name]);
      }
      OldEntryStays(st.disk, st.world, p.world, t.name);
    }
  }

  // A request AddServices can carry out on an entry.
  predicate Addable(entry: AppEntry, svcs: seq<Svc>)
  {
    AtMostOnce(svcs, AIStor) || AIStor in entry.services
  }

  lemma {:induction false} AddRunKeepsInv(st: State, ts: seq<Target>, svcs: seq<Svc>, env: Env)
    requires Inv(st) && GoodEnv(env) && AllKnown(st.disk, ts) && AddTruthful(st, ts, svcs, env)
    requires forall i :: 0 <= i < |ts| ==> Addable(st.disk[ts[i].name], svcs)
    ensures Inv(AddRun(st, ts, svcs, env).st)
    decreases |ts|
  {
    if ts != [] {
      if Missing(st.disk[ts[0].name], svcs) == [] {
        AddRunKeepsInv(st, ts[1..], svcs, env);
      } else {
        AddTargetKeepsInv(st, ts[0], svcs, env);
        if env.saves(st.saves) {
          AddSplitsRequest(st, ts[0], svcs, env);
          AddRunKeepsInv(AfterAdd(st, ts[0], svcs, env), ts[1..], svcs, env);
        }
      }
    }
  }

  lemma AddTargetKeepsInv(st: State, t: Target, svcs: seq<Svc>, env: Env)
    requires Inv(st) && GoodEnv(env) && t.name in st.disk && Addable(st.disk[t.name], svcs)
    requires env.saves(st.saves) ==> ToldTruth(env.fates, AddTicks(st, t, svcs, env))
    ensures Inv(AfterAdd(st, t, svcs, env))
  {
    var e0 := st.disk[t.name];
    assert ValidName(t.name) && WellTyped(e0) && OwnOnly(t.name, e0);
    MissingIsFilter(e0, svcs);
    if AtMostOnce(svcs, AIStor) {
      MissingKeepsOnce(e0, svcs, AIStor);
    }
    var p0 := Progress(st.world, e0, [], {});
    var p := AddProgress(st, t, svcs, env);
    if env.saves(st.saves) {
      LoopKeeps(p0, Missing(e0, svcs), t.name, SetupOptions(t, false, env), env);
      EntryReplaced(st.disk, st.world, p.world, t.name, p.entry);
    } else {
      LoopKeepsOthers(p0, Missing(e0, svcs), t.name, SetupOptions(t, false, env), env);
      LoopKeepsHeld(p0, Missing(e0, svcs), t.name, SetupOptions(t, false, env), env, e0);
      OldEntryStays(st.disk, st.world, p.world, t.name);
    }
  }

  // AIStor is asked for at most once, and an environment listed twice does not
  // come with AIStor.
  predicate SetupAllowed(services: seq<string>, envs: seq<string>)
  {
    && (forall i, j :: 0 <= i < j < |services| ==> !(services[i] == SvcName(AIStor) == services[j]))
    && (SvcName(AIStor) in services ==> Distinct(envs))
  }

  // No Redis Provision of the call reports a success that is none.
  ghost predicate SetupTellsTruth(
      st: State, app: string, services: seq<string>, envs: seq<string>, tag: string, full: bool, env: Env)
  {
    var ts := SetupTargets(app, envs, tag);
    SetupError(st, app, services, ts, env) == None ==> SetupTruthful(st, ts, Resolve(services).value, full, env)
  }

  lemma SetupKeepsInv(
      st: State, app: string, services: seq<string>, envs: seq<string>, tag: string, full: bool, env: Env)
    requires Inv(st) && GoodEnv(env) && SetupAllowed(services, envs)
    requires SetupTellsTruth(st, app, services, envs, tag, full, env)
    ensures Inv(Setup(st, app, services, envs, tag, full, env).st)
  {
    var ts := SetupTargets(app, envs, tag);
    if SetupError(st, app, services, ts, env) == None {
      NoTargetsError(st.disk, ts);
      ResolveKeepsOnce(services);
      if Distinct(envs) {
        SiblingsDiffer(app, envs, tag);
      }
      SetupRunKeepsInv(st, ts, Resolve(services).value, full, env);
    }
  }

  lemma SiblingsDiffer(app: string, envs: seq<string>, tag: string)
    requires Distinct(envs)
    ensures var ts := SetupTargets(app, envs, tag); forall i, j :: 0 <= i < j < |ts| ==> ts[i].name != ts[j].name
  {
    var ts := SetupTargets(app, envs, tag);
    if envs != [] {
      forall i, j | 0 <= i < j < |ts|
        ensures ts[i].name != ts[j].name
      {
        assert ts[i].name[|app| + 1..] == envs[i] && ts[j].name[|app| + 1..] == envs[j];
      }
    }
  }

  lemma ResolveKeepsOnce(services: seq<string>)
    requires Resolve(services).Some?
    ensures forall i :: 0 <= i < |services| ==>
      (Resolve(services).value[i] == AIStor <==> services[i] == SvcName(AIStor))
    ensures AIStor in Resolve(services).value <==> SvcName(AIStor) in services
  {
    var svcs := Resolve(services).value;
    forall i | 0 <= i < |services|
      ensures svcs[i] == AIStor <==> services[i] == SvcName(AIStor)
    {
      assert SvcName(svcs[i]) == services[i];
    }
    if SvcName(AIStor) in services {
      var i :| 0 <= i < |services| && services[i] == SvcName(AIStor);
      assert svcs[i] == AIStor;
    }
    if AIStor in svcs {
      var i :| 0 <= i < |svcs| && svcs[i] == AIStor;
      assert services[i] == SvcName(AIStor);
    }
  }

  // AIStor is asked for at most once, or attached to every target already.
  predicate AddAllowed(disk: Apps, services: seq<string>, ts: seq<Target>)
  {
    || (forall i, j :: 0 <= i < j < |services| ==> !(services[i] == SvcName(AIStor) == services[j]))
    || (forall i :: 0 <= i < |ts| ==> ts[i].name in disk && AIStor in disk[ts[i].name].services)
  }

  ghost predicate AddTellsTruth(st: State, app: string, services: seq<string>, envs: seq<string>, tag: string, env: Env)
  {
    var ts := AddTargets(st.disk, app, envs, tag);
    AddError(st, app, services, ts, env) == None ==> AddTruthful(st, ts, Resolve(services).value, env)
  }

  ghost predicate NothingRejected(fates: Fates)
  {
    forall t :: !fates(t).Rejected?
  }

  lemma {:induction false} SetupIsTruthful(st: State, ts: seq<Target>, svcs: seq<Svc>, full: bool, env: Env)
    requires NothingRejected(env.fates)
    ensures SetupTruthful(st, ts, svcs, full, env)
    decreases |ts|
  {
    if ts != [] {
      SetupIsTruthful(AfterSetup(st, ts[0], svcs, full, env), ts[1..], svcs, full, env);
    }
  }

  lemma {:induction false} AddIsTruthful(st: State, ts: seq<Target>, svcs: seq<Svc>, env: Env)
    requires NothingRejected(env.fates) && AllKnown(st.disk, ts)
    ensures AddTruthful(st, ts, svcs, env)
    decreases |ts|
  {
    if ts != [] {
      if Missing(st.disk[ts[0].name], svcs) == [] {
        AddIsTruthful(st, ts[1..], svcs, env);
      } else {
        AddIsTruthful(AfterAdd(st, ts[0], svcs, env), ts[1..], svcs, env);
      }
    }
  }

  // With nothing rejected, what setup and add report is true.
  lemma SetupReportsTruth(
      st: State, app: string, services: seq<string>, envs: seq<string>, tag: string, full: bool, env: Env)
    requires NothingRejected(env.fates)
    ensures SetupTellsTruth(st, app, services, envs, tag, full, env)
  {
    var ts := SetupTargets(app, envs, tag);
    if SetupError(st, app, services, ts, env) == None {
      SetupIsTruthful(st, ts, Resolve(services).value, full, env);
    }
  }

  lemma AddReportsTruth(st: State, app: string, services: seq<string>, envs: seq<string>, tag: string, env: Env)
    requires NothingRejected(env.fates)
    ensures AddTellsTruth(st, app, services, envs, tag, env)
  {
    var ts := AddTargets(st.disk, app, envs, tag);
    if AddError(st, app, services, ts, env) == None {
      AddIsTruthful(st, ts, Resolve(services).value, env);
    }
  }

  lemma AddKeepsInv(st: State, app: string, services: seq<string>, envs: seq<string>, tag: string, env: Env)
    requires Inv(st) && GoodEnv(env) && AddAllowed(st.disk, services, AddTargets(st.disk, app, envs, tag))
    requires AddTellsTruth(st, app, services, envs, tag, env)
    ensures Inv(Add(st, app, services, envs, tag, env).st)
  {
    var ts := AddTargets(st.disk, app, envs, tag);
    if AddError(st, app, services, ts, env) == None {
      ResolveKeepsOnce(services);
      AddRunKeepsInv(st, ts, Resolve(services).value, env);
    }
  }

  lemma DetachKeepsInv(st: State, app: string, services: seq<string>, env: Env)
    requires Inv(st)
    ensures Inv(Detach(st, app, services, env).st)
  {
    if DetachError(st, app, services) == None {
      var entry := st.disk[app].(services := st.disk[app].services - {Signoz});
      assert ValidName(app) && WellTyped(st.disk[app]) && OwnOnly(app, st.disk[app]);
      EntryReplaced(st.disk, st.world, st.world, app, entry);
    }
  }

  // Without a failed save, RemoveApp keeps the invariant whatever the brokers
  // do, and so it does for an app that has nothing to tear down.
  lemma RemoveKeepsInv(st: State, app: string, env: Env)
    requires Inv(st) && (env.saves(st.saves) || (app in st.disk && st.disk[app].services.Keys <= {Signoz}))
    ensures Inv(Remove(st, app, env).st)
  {
    if RemoveError(st, app) == None {
      var w := TeardownLoop(st.world, st.disk[app], CATALOG, app, env);
      TeardownLoopKeeps(st.world, st.disk[app], CATALOG, app, env);
      OthersHold(st, w, app);
      if !env.saves(st.saves) {
        assert WellTyped(st.disk[app]);
      }
    }
  }

  lemma OthersHold(st: State, w: World, app: string)
    requires Inv(st) && KeepsOthers(st.world, w, app)
    ensures SelfNaming(st.disk - {app})
    ensures forall n, s :: n in st.disk && n != app && s in st.disk[n].services ==> Accepts(w, st.disk[n].services[s])
  {
    forall n, s | n in st.disk && n != app && s in st.disk[n].services
      ensures Accepts(w, st.disk[n].services[s])
    {
      assert WellTyped(st.disk[n]) && OwnOnly(n, st.disk[n]);
      assert Fits(s, st.disk[n].services[s]) && NamesOnly(n, st.disk[n].services[s]);
    }
  }
}
