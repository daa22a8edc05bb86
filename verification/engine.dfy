// The engine operations as functions on the state: SetupApp, AddServices,
// DetachServices, RemoveApp. `shelf_engine.dfy` has the class that runs them.
module EngineSpec {
  import opened Text
  import opened Names
  import opened Registry
  import opened Brokers
  import opened ServiceOps
  import opened Reconciling

  // What the program does not decide: faults, generated passwords, the clock,
  // whether a save succeeds, which containers run, SIGNOZ_DEFAULT_ENV.
  datatype Env = Env(
    fates: Fates,
    passwords: nat -> string,
    clock: nat -> string,
    saves: nat -> bool,
    running: (nat, Svc) -> bool,
    defaultEnv: string)

  ghost predicate GoodEnv(env: Env)
  {
    forall t :: env.passwords(t) != ""
  }

  // The registry on disk, the number of saves so far, and the brokers.
  datatype State = State(disk: Apps, saves: nat, world: World)

  datatype Error =
    | ErrInvalidName | ErrNoServices | ErrInvalidService | ErrAppAlreadyExists | ErrAppNotFound
    | ErrContainerNotRunning | ErrNotDetachable | ErrTeardown | ErrSave

  datatype TargetResult = TargetResult(name: string, entry: AppEntry, provisioned: seq<Svc>, failures: set<Svc>)

  datatype Answer = Answer(st: State, results: seq<TargetResult>, err: Option<Error>)

  function Saved(st: State, reg: Apps, env: Env): State
  {
    if env.saves(st.saves) then st.(disk := reg, saves := st.saves + 1) else st.(saves := st.saves + 1)
  }

  // --------------------------------------------------- provisioning one target

  datatype Progress = Progress(world: World, entry: AppEntry, provisioned: seq<Svc>, failures: set<Svc>)

  function ProvisionOne(p: Progress, svc: Svc, app: string, opts: ProvisionOptions, env: Env): Progress
  {
    var r := Provision(p.world, svc, app, env.passwords(p.world.tick), opts, env.fates);
    match r.config
    case None => p.(world := r.w, failures := p.failures + {svc})
    case Some(cfg) =>
      p.(world := r.w,
         entry := p.entry.(services := p.entry.services[svc := cfg]),
         provisioned := p.provisioned + [svc])
  }

  function ProvisionLoop(p: Progress, svcs: seq<Svc>, app: string, opts: ProvisionOptions, env: Env): Progress
    decreases |svcs|
  {
    if svcs == [] then p
    else ProvisionLoop(ProvisionOne(p, svcs[0], app, opts, env), svcs[1..], app, opts, env)
  }

  // The ticks at which the loop starts on Redis.
  function RedisTicks(p: Progress, svcs: seq<Svc>, app: string, opts: ProvisionOptions, env: Env): set<nat>
    decreases |svcs|
  {
    if svcs == [] then {}
    else
      (if svcs[0] == Redis then {p.world.tick} else {})
      + RedisTicks(ProvisionOne(p, svcs[0], app, opts, env), svcs[1..], app, opts, env)
  }

  // No Redis Provision begun at these ticks reports a success that is none.
  ghost predicate ToldTruth(fates: Fates, ticks: set<nat>)
  {
    forall t :: t in ticks ==> Truthful(fates, t)
  }

  // ----------------------------------------------------------------- SetupApp

  function FreshEntry(t: Target, createdAt: string): AppEntry
  {
    AppEntry(createdAt, t.signozEnv, if t.signozServiceName != t.name then t.signozServiceName else "", map[])
  }

  function SetupOptions(t: Target, full: bool, env: Env): ProvisionOptions
  {
    ProvisionOptions(full, t.signozServiceName, t.signozEnv, env.defaultEnv)
  }

  function SetupProgress(st: State, t: Target, svcs: seq<Svc>, full: bool, env: Env): Progress
  {
    ProvisionLoop(Progress(st.world, FreshEntry(t, env.clock(st.world.tick)), [], {}),
      svcs, t.name, SetupOptions(t, full, env), env)
  }

  function ResultOf(t: Target, p: Progress): TargetResult
  {
    TargetResult(t.name, p.entry, p.provisioned, p.failures)
  }

  function SetupRun(st: State, ts: seq<Target>, svcs: seq<Svc>, full: bool, env: Env): Answer
    decreases |ts|
  {
    if ts == [] then Answer(st, [], None)
    else
      var p := SetupProgress(st, ts[0], svcs, full, env);
      var st1 := Saved(st.(world := p.world), st.disk[ts[0].name := p.entry], env);
      if !env.saves(st.saves) then Answer(st1, [], Some(ErrSave))
      else
        var rest := SetupRun(st1, ts[1..], svcs, full, env);
        rest.(results := [ResultOf(ts[0], p)] + rest.results)
  }

  function AfterSetup(st: State, t: Target, svcs: seq<Svc>, full: bool, env: Env): State
  {
    var p := SetupProgress(st, t, svcs, full, env);
    Saved(st.(world := p.world), st.disk[t.name := p.entry], env)
  }

  function SetupTicks(st: State, t: Target, svcs: seq<Svc>, full: bool, env: Env): set<nat>
  {
    RedisTicks(Progress(st.world, FreshEntry(t, env.clock(st.world.tick)), [], {}),
      svcs, t.name, SetupOptions(t, full, env), env)
  }

  // What the saved targets report of Redis is true.
  ghost predicate SetupTruthful(st: State, ts: seq<Target>, svcs: seq<Svc>, full: bool, env: Env)
    decreases |ts|
  {
    ts != [] && env.saves(st.saves) ==>
      && ToldTruth(env.fates, SetupTicks(st, ts[0], svcs, full, env))
      && SetupTruthful(AfterSetup(st, ts[0], svcs, full, env), ts[1..], svcs, full, env)
  }

  predicate ContainersRun(names: seq<string>, tick: nat, env: Env)
  {
    Resolve(names).Some? && forall i :: 0 <= i < |Resolve(names).value| ==> env.running(tick, Resolve(names).value[i])
  }

  function SetupError(st: State, app: string, services: seq<string>, ts: seq<Target>, env: Env): Option<Error>
  {
    if !ValidName(app) then Some(ErrInvalidName)
    else if services == [] then Some(ErrNoServices)
    else if !Parsable(services) then Some(ErrInvalidService)
    else match TargetsError(st.disk, ts)
      case Some(e) => Some(e)
      case None => if !ContainersRun(services, st.world.tick, env) then Some(ErrContainerNotRunning) else None
  }

  // The pre-flight loop of SetupApp: the first target that is invalid or taken.
  function TargetsError(disk: Apps, ts: seq<Target>): Option<Error>
    decreases |ts|
  {
    if ts == [] then None
    else if !ValidName(ts[0].name) then Some(ErrInvalidName)
    else if ts[0].name in disk then Some(ErrAppAlreadyExists)
    else TargetsError(disk, ts[1..])
  }

  function Setup(
      st: State, app: string, services: seq<string>, envs: seq<string>, tag: string, full: bool, env: Env): Answer
  {
    var ts := SetupTargets(app, envs, tag);
    match SetupError(st, app, services, ts, env)
    case Some(e) => Answer(st, [], Some(e))
    case None => SetupRun(st, ts, Resolve(services).value, full, env)
  }

  // -------------------------------------------------------------- AddServices

  function AddTargets(disk: Apps, app: string, envs: seq<string>, tag: string): seq<Target>
  {
    if envs != [] then Siblings(app, envs)
    else
      var known := app in disk;
      var name := if known && disk[app].signozServiceName != "" then disk[app].signozServiceName else app;
      var e := if tag == "" && known then disk[app].environment else tag;
      [Target(app, name, e)]
  }

  // The services of the request the entry does not have yet.
  function Missing(entry: AppEntry, svcs: seq<Svc>): seq<Svc>
  {
    if svcs == [] then []
    else (if svcs[0] in entry.services then [] else [svcs[0]]) + Missing(entry, svcs[1..])
  }

  function AddProgress(st: State, t: Target, svcs: seq<Svc>, env: Env): Progress
    requires t.name in st.disk
  {
    ProvisionLoop(Progress(st.world, st.disk[t.name], [], {}),
      Missing(st.disk[t.name], svcs), t.name, SetupOptions(t, false, env), env)
  }

  function AddRun(st: State, ts: seq<Target>, svcs: seq<Svc>, env: Env): Answer
    requires forall i :: 0 <= i < |ts| ==> ts[i].name in st.disk
    decreases |ts|
  {
    if ts == [] then Answer(st, [], None)
    else
      var entry := st.disk[ts[0].name];
      if Missing(entry, svcs) == [] then
        var rest := AddRun(st, ts[1..], svcs, env);
        rest.(results := [TargetResult(ts[0].name, entry, [], {})] + rest.results)
      else
        var p := AddProgress(st, ts[0], svcs, env);
        var st1 := Saved(st.(world := p.world), st.disk[ts[0].name := p.entry], env);
        if !env.saves(st.saves) then Answer(st1, [], Some(ErrSave))
        else
          var rest := AddRun(st1, ts[1..], svcs, env);
          rest.(results := [ResultOf(ts[0], p)] + rest.results)
  }

  function AfterAdd(st: State, t: Target, svcs: seq<Svc>, env: Env): State
    requires t.name in st.disk
  {
    var p := AddProgress(st, t, svcs, env);
    Saved(st.(world := p.world), st.disk[t.name := p.entry], env)
  }

  function AddTicks(st: State, t: Target, svcs: seq<Svc>, env: Env): set<nat>
    requires t.name in st.disk
  {
    RedisTicks(Progress(st.world, st.disk[t.name], [], {}),
      Missing(st.disk[t.name], svcs), t.name, SetupOptions(t, false, env), env)
  }

  ghost predicate AddTruthful(st: State, ts: seq<Target>, svcs: seq<Svc>, env: Env)
    requires AllKnown(st.disk, ts)
    decreases |ts|
  {
    ts != [] ==>
      if Missing(st.disk[ts[0].name], svcs) == [] then AddTruthful(st, ts[1..], svcs, env)
      else env.saves(st.saves) ==>
        && ToldTruth(env.fates, AddTicks(st, ts[0], svcs, env))
        && AddTruthful(AfterAdd(st, ts[0], svcs, env), ts[1..], svcs, env)
  }

  predicate AllKnown(disk: Apps, ts: seq<Target>)
  {
    forall i :: 0 <= i < |ts| ==> ts[i].name in disk
  }

  function AddError(st: State, app: string, services: seq<string>, ts: seq<Target>, env: Env): Option<Error>
  {
    if !ValidName(app) then Some(ErrInvalidName)
    else if services == [] then Some(ErrNoServices)
    else if !Parsable(services) then Some(ErrInvalidService)
    else if !AllKnown(st.disk, ts) then Some(ErrAppNotFound)
    else if !ContainersRun(services, st.world.tick, env) then Some(ErrContainerNotRunning)
    else None
  }

  function Add(st: State, app: string, services: seq<string>, envs: seq<string>, tag: string, env: Env): Answer
  {
    var ts := AddTargets(st.disk, app, envs, tag);
    match AddError(st, app, services, ts, env)
    case Some(e) => Answer(st, [], Some(e))
    case None => AddRun(st, ts, Resolve(services).value, env)
  }

  // ----------------------------------------------------------- DetachServices

  predicate Detachable(name: string) { name == SvcName(Signoz) }

  function DetachError(st: State, app: string, services: seq<string>): Option<Error>
  {
    if !ValidName(app) then Some(ErrInvalidName)
    else if services == [] then Some(ErrNoServices)
    else if !Parsable(services) then Some(ErrInvalidService)
    else if exists i :: 0 <= i < |services| && !Detachable(services[i]) then Some(ErrNotDetachable)
    else if app !in st.disk then Some(ErrAppNotFound)
    else None
  }

  // SignOz, the only detachable service, has nothing to tear down.
  function Detach(st: State, app: string, services: seq<string>, env: Env): Answer
  {
    match DetachError(st, app, services)
    case Some(e) => Answer(st, [], Some(e))
    case None =>
      var entry := st.disk[app].(services := st.disk[app].services - {Signoz});
      var st1 := Saved(st, st.disk[app := entry], env);
      Answer(st1, [], if env.saves(st.saves) then None else Some(ErrSave))
  }

  // ---------------------------------------------------------------- RemoveApp

  function TeardownLoop(w: World, entry: AppEntry, svcs: seq<Svc>, app: string, env: Env): World
    decreases |svcs|
  {
    if svcs == [] then w
    else
      var w1 := if svcs[0] in entry.services then Teardown(w, svcs[0], app, env.fates).w else w;
      TeardownLoop(w1, entry, svcs[1..], app, env)
  }

  function RemoveError(st: State, app: string): Option<Error>
  {
    if !ValidName(app) then Some(ErrInvalidName)
    else if app !in st.disk then Some(ErrAppNotFound)
    else None
  }

  function Remove(st: State, app: string, env: Env): Answer
  {
    match RemoveError(st, app)
    case Some(e) => Answer(st, [], Some(e))
    case None =>
      var w := TeardownLoop(st.world, st.disk[app], CATALOG, app, env);
      var st1 := Saved(st.(world := w), st.disk - {app}, env);
      Answer(st1, [], if env.saves(st.saves) then None else Some(ErrSave))
  }

  // ----------------------------------------------- what a rejected call leaves

  // SetupApp refuses a bad name, an empty or invalid list, an invalid target or
  // one that exists, and a stopped container, and leaves registry and brokers
  // as they were.
  lemma RejectedSetupChangesNothing(
      st: State, app: string, services: seq<string>, envs: seq<string>, tag: string, full: bool, env: Env)
    requires
      || !ValidName(app) || services == [] || !Parsable(services) || !ContainersRun(services, st.world.tick, env)
      || exists i :: 0 <= i < |SetupTargets(app, envs, tag)| && Taken(st.disk, SetupTargets(app, envs, tag)[i])
    ensures var o := Setup(st, app, services, envs, tag, full, env); o.st == st && o.results == [] && o.err.Some?
  {
    var ts := SetupTargets(app, envs, tag);
    if i :| 0 <= i < |ts| && Taken(st.disk, ts[i]) {
      ClashIsFound(st.disk, ts, i);
    }
  }

  predicate Taken(disk: Apps, t: Target) { !ValidName(t.name) || t.name in disk }

  // AddServices refuses the same lists, an app that is missing, and a stopped
  // container.
  lemma RejectedAddChangesNothing(
      st: State, app: string, services: seq<string>, envs: seq<string>, tag: string, env: Env)
    requires
      || !ValidName(app) || services == [] || !Parsable(services) || !ContainersRun(services, st.world.tick, env)
      || !AllKnown(st.disk, AddTargets(st.disk, app, envs, tag))
    ensures var o := Add(st, app, services, envs, tag, env); o.st == st && o.results == [] && o.err.Some?
  {
  }

  // DetachServices refuses everything but SignOz, and a missing app.
  lemma RejectedDetachChangesNothing(st: State, app: string, services: seq<string>, env: Env)
    requires
      || !ValidName(app) || services == [] || !Parsable(services) || app !in st.disk
      || exists i :: 0 <= i < |services| && !Detachable(services[i])
    ensures var o := Detach(st, app, services, env); o.st == st && o.err.Some?
  {
  }

  // RemoveApp refuses a bad name and a missing app.
  lemma RejectedRemoveChangesNothing(st: State, app: string, env: Env)
    requires !ValidName(app) || app !in st.disk
    ensures var o := Remove(st, app, env); o.st == st && o.err.Some?
  {
  }

  lemma {:induction false} ClashIsFound(disk: Apps, ts: seq<Target>, i: nat)
    requires i < |ts| && Taken(disk, ts[i])
    ensures TargetsError(disk, ts).Some?
    decreases |ts|
  {
    if i > 0 {
      ClashIsFound(disk, ts[1..], i - 1);
    }
  }

  lemma {:induction false} NoTargetsError(disk: Apps, ts: seq<Target>)
    ensures TargetsError(disk, ts) == None <==>
      forall i :: 0 <= i < |ts| ==> ValidName(ts[i].name) && ts[i].name !in disk
    decreases |ts|
  {
    if ts != [] {
      NoTargetsError(disk, ts[1..]);
      assert forall i :: 0 < i < |ts| ==> ts[i] == ts[1..][i - 1];
    }
  }

  // ---------------------------------------------------- the provisioning loop

  predicate DistinctSvcs(s: seq<Svc>)
  {
    forall i, j :: 0 <= i < j < |s| ==> s[i] != s[j]
  }

  predicate AtMostOnce(s: seq<Svc>, svc: Svc)
  {
    forall i, j :: 0 <= i < j < |s| ==> !(s[i] == svc && s[j] == svc)
  }

  function ToSet(s: seq<Svc>): set<Svc> { set x | x in s }

  // The request seen so far is split into provisioned and failed services,
  // and the entry is the old one plus exactly the provisioned ones.
  ghost predicate Splits(p: Progress, e0: AppEntry, asked: set<Svc>)
  {
    && p.entry.createdAt == e0.createdAt
    && p.entry.environment == e0.environment
    && p.entry.signozServiceName == e0.signozServiceName
    && p.entry.services.Keys == e0.services.Keys + ToSet(p.provisioned)
    && (forall s :: s in e0.services && s !in p.provisioned ==> p.entry.services[s] == e0.services[s])
    && ToSet(p.provisioned) + p.failures == asked
  }

  lemma {:induction false} LoopSplits(
      p: Progress, e0: AppEntry, asked: set<Svc>, svcs: seq<Svc>, app: string, opts: ProvisionOptions, env: Env)
    requires Splits(p, e0, asked)
    ensures Splits(ProvisionLoop(p, svcs, app, opts, env), e0, asked + ToSet(svcs))
    ensures DistinctSvcs(svcs) && asked !! ToSet(svcs) && ToSet(p.provisioned) !! p.failures ==>
      ToSet(ProvisionLoop(p, svcs, app, opts, env).provisioned) !! ProvisionLoop(p, svcs, app, opts, env).failures
    decreases |svcs|
  {
    if svcs == [] {
      assert asked + ToSet(svcs) == asked;
    } else {
      var p1 := ProvisionOne(p, svcs[0], app, opts, env);
      LoopSplits(p1, e0, asked + {svcs[0]}, svcs[1..], app, opts, env);
      assert asked + {svcs[0]} + ToSet(svcs[1..]) == asked + ToSet(svcs);
      if DistinctSvcs(svcs) && asked !! ToSet(svcs) {
        assert svcs[0] in ToSet(svcs);
        forall x | x in svcs[1..]
          ensures x != svcs[0] && x in ToSet(svcs)
        {
        }
        assert asked + {svcs[0]} !! ToSet(svcs[1..]);
      }
    }
  }

  // SetupApp on one target: Provisioned and Failures split the request, and
  // the new entry holds exactly Provisioned.
  lemma SetupSplitsRequest(st: State, t: Target, svcs: seq<Svc>, full: bool, env: Env)
    ensures var p := SetupProgress(st, t, svcs, full, env);
      && p.entry.services.Keys == ToSet(p.provisioned)
      && ToSet(p.provisioned) + p.failures == ToSet(svcs)
      && (DistinctSvcs(svcs) ==> ToSet(p.provisioned) !! p.failures)
  {
    var e0 := FreshEntry(t, env.clock(st.world.tick));
    var p0 := Progress(st.world, e0, [], {});
    LoopSplits(p0, e0, {}, svcs, t.name, SetupOptions(t, full, env), env);
    assert {} + ToSet(svcs) == ToSet(svcs);
  }

  lemma {:induction false} MissingIsFilter(entry: AppEntry, svcs: seq<Svc>)
    ensures forall s :: s in Missing(entry, svcs) <==> s in svcs && s !in entry.services
    ensures DistinctSvcs(svcs) ==> DistinctSvcs(Missing(entry, svcs))
  {
    if svcs != [] {
      MissingIsFilter(entry, svcs[1..]);
      if DistinctSvcs(svcs) {
        assert svcs[0] !in svcs[1..];
      }
    }
  }

  lemma {:induction false} MissingKeepsOnce(entry: AppEntry, svcs: seq<Svc>, s: Svc)
    requires AtMostOnce(svcs, s)
    ensures AtMostOnce(Missing(entry, svcs), s)
  {
    if svcs != [] {
      MissingIsFilter(entry, svcs[1..]);
      MissingKeepsOnce(entry, svcs[1..], s);
      assert svcs[0] == s ==> s !in svcs[1..];
    }
  }

  // AddServices on one target: what was attached is left out of the request,
  // the rest is split, and the entry keeps the old configurations.
  lemma AddSplitsRequest(st: State, t: Target, svcs: seq<Svc>, env: Env)
    requires t.name in st.disk
    ensures var p := AddProgress(st, t, svcs, env);
      var e0 := st.disk[t.name];
      && p.entry.services.Keys == e0.services.Keys + ToSet(p.provisioned)
      && (forall s :: s in e0.services ==> p.entry.services[s] == e0.services[s])
      && ToSet(p.provisioned) + p.failures == ToSet(svcs) - e0.services.Keys
      && (DistinctSvcs(svcs) ==> ToSet(p.provisioned) !! p.failures)
  {
    var e0 := st.disk[t.name];
    var todo := Missing(e0, svcs);
    var p := AddProgress(st, t, svcs, env);
    MissingIsFilter(e0, svcs);
    LoopSplits(Progress(st.world, e0, [], {}), e0, {}, todo, t.name, SetupOptions(t, false, env), env);
    assert {} + ToSet(todo) == ToSet(svcs) - e0.services.Keys;
    forall s | s in e0.services
      ensures p.entry.services[s] == e0.services[s]
    {
      assert s !in ToSet(todo);
      assert s !in ToSet(p.provisioned);
    }
  }

  // ------------------------------------------------- the registry after a call

  // The registry with the entries of the results written over it, in order.
  function Written(disk: Apps, results: seq<TargetResult>): Apps
    decreases |results|
  {
    if results == [] then disk else Written(disk[results[0].name := results[0].entry], results[1..])
  }

  // SetupApp saves after each target: after k successful saves the registry
  // is the old one with the first k targets written, whether or not a later
  // save fails.
  lemma {:induction false} SetupSavesPrefix(st: State, ts: seq<Target>, svcs: seq<Svc>, full: bool, env: Env)
    ensures var o := SetupRun(st, ts, svcs, full, env);
      && o.st.disk == Written(st.disk, o.results)
      && |o.results| <= |ts|
      && (forall i :: 0 <= i < |o.results| ==> o.results[i].name == ts[i].name)
      && (o.err == None <==> |o.results| == |ts|)
      && (o.err == None || o.err == Some(ErrSave))
    decreases |ts|
  {
    if ts != [] && env.saves(st.saves) {
      var p := SetupProgress(st, ts[0], svcs, full, env);
      var st1 := Saved(st.(world := p.world), st.disk[ts[0].name := p.entry], env);
      SetupSavesPrefix(st1, ts[1..], svcs, full, env);
      var rest := SetupRun(st1, ts[1..], svcs, full, env).results;
      assert ([ResultOf(ts[0], p)] + rest)[1..] == rest;
    }
  }

  lemma {:induction false} AddSavesPrefix(st: State, ts: seq<Target>, svcs: seq<Svc>, env: Env)
    requires AllKnown(st.disk, ts)
    ensures var o := AddRun(st, ts, svcs, env);
      && o.st.disk == Written(st.disk, o.results)
      && o.st.disk.Keys == st.disk.Keys
      && |o.results| <= |ts|
      && (forall i :: 0 <= i < |o.results| ==> o.results[i].name == ts[i].name)
      && (o.err == None <==> |o.results| == |ts|)
    decreases |ts|
  {
    if ts != [] {
      var entry := st.disk[ts[0].name];
      if Missing(entry, svcs) == [] {
        AddSavesPrefix(st, ts[1..], svcs, env);
        var rest := AddRun(st, ts[1..], svcs, env).results;
        assert st.disk[ts[0].name := entry] == st.disk;
        assert ([TargetResult(ts[0].name, entry, [], {})] + rest)[1..] == rest;
      } else if env.saves(st.saves) {
        var p := AddProgress(st, ts[0], svcs, env);
        var st1 := Saved(st.(world := p.world), st.disk[ts[0].name := p.entry], env);
        AddSavesPrefix(st1, ts[1..], svcs, env);
        var rest := AddRun(st1, ts[1..], svcs, env).results;
        assert ([ResultOf(ts[0], p)] + rest)[1..] == rest;
      }
    }
  }
}
