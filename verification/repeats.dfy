// A request that names AIStor twice, or an environment twice along with it: the
// repetitions that can leave registry and broker with different secrets.
module Repeats {
  import opened Text
  import opened Names
  import opened Registry
  import opened Brokers
  import opened ServiceOps
  import opened Reconciling
  import opened EngineSpec
  import opened EngineInvariant

  // -------------------------------------------------------- chosen environments

  function Unary(n: nat): (s: string)
    ensures |s| == n
  {
    seq(n, i => 'x')
  }

  // Every command before tick `n` is answered and every later one never gets through; the
  // saves before number `m` work and later ones fail; no password repeats.
  function CutOff(n: nat, m: nat): Env
  {
    Env((t: nat) => if t < n then Answered else Unreached, (t: nat) => Unary(t + 1), (t: nat) => "", (k: nat) => k < m,
      (t: nat, s: Svc) => true, "")
  }

  function Faultless(): Env
  {
    Env((t: nat) => Answered, (t: nat) => Unary(t + 1), (t: nat) => "", (k: nat) => true, (t: nat, s: Svc) => true, "")
  }

  lemma CutIsGood(n: nat, m: nat)
    ensures GoodEnv(CutOff(n, m)) && NothingRejected(CutOff(n, m).fates)
  {
    forall t: nat
      ensures CutOff(n, m).passwords(t) != ""
    {
      assert |Unary(t + 1)| == t + 1;
    }
  }

  // ------------------------------------------------------------------ locality

  // A run depends on the fates of its own ticks only.
  lemma {:induction false} RunIsLocal(w: World, steps: seq<Step>, f: Fates, g: Fates)
    requires forall t :: w.tick <= t < Run(w, steps, f).w.tick ==> f(t) == g(t)
    ensures Run(w, steps, f) == Run(w, steps, g)
    decreases |steps|
  {
    if steps != [] {
      RunTicks(w, steps, f);
      var r := Send(w, steps[0].cmd, f);
      assert r == Send(w, steps[0].cmd, g);
      if r.ok || steps[0].bestEffort {
        RunIsLocal(r.w, steps[1..], f, g);
      }
    }
  }

  ghost predicate AgreeUpTo(e: Env, f: Env, first: nat, last: nat)
  {
    (forall t :: first <= t < last ==> e.fates(t) == f.fates(t)) && forall t :: e.passwords(t) == f.passwords(t)
  }

  lemma OneTicks(p: Progress, svc: Svc, app: string, opts: ProvisionOptions, env: Env)
    ensures ProvisionOne(p, svc, app, opts, env).world.tick >= p.world.tick
  {
    RunTicks(p.world, ProvisionSteps(svc, app, env.passwords(p.world.tick), opts), env.fates);
  }

  lemma OneIsLocal(p: Progress, svc: Svc, app: string, opts: ProvisionOptions, e: Env, f: Env)
    requires AgreeUpTo(e, f, p.world.tick, ProvisionOne(p, svc, app, opts, e).world.tick)
    ensures ProvisionOne(p, svc, app, opts, e) == ProvisionOne(p, svc, app, opts, f)
  {
    if NameAccepted(svc, app) {
      RunIsLocal(p.world, ProvisionSteps(svc, app, e.passwords(p.world.tick), opts), e.fates, f.fates);
    }
  }

  lemma {:induction false} LoopTicks(p: Progress, svcs: seq<Svc>, app: string, opts: ProvisionOptions, env: Env)
    ensures ProvisionLoop(p, svcs, app, opts, env).world.tick >= p.world.tick
    decreases |svcs|
  {
    if svcs != [] {
      OneTicks(p, svcs[0], app, opts, env);
      LoopTicks(ProvisionOne(p, svcs[0], app, opts, env), svcs[1..], app, opts, env);
    }
  }

  lemma {:induction false} LoopIsLocal(
      p: Progress, svcs: seq<Svc>, app: string, opts: ProvisionOptions, e: Env, f: Env)
    requires AgreeUpTo(e, f, p.world.tick, ProvisionLoop(p, svcs, app, opts, e).world.tick)
    ensures ProvisionLoop(p, svcs, app, opts, e) == ProvisionLoop(p, svcs, app, opts, f)
    decreases |svcs|
  {
    if svcs != [] {
      var p1 := ProvisionOne(p, svcs[0], app, opts, e);
      OneTicks(p, svcs[0], app, opts, e);
      LoopTicks(p1, svcs[1..], app, opts, e);
      OneIsLocal(p, svcs[0], app, opts, e, f);
      LoopIsLocal(p1, svcs[1..], app, opts, e, f);
    }
  }

  // ------------------------------------------------------- nothing gets through

  ghost predicate UnreachedFrom(fates: Fates, t0: nat)
  {
    forall t :: t >= t0 ==> fates(t) == Unreached
  }

  lemma {:induction false} UnreachedRunChangesNothing(w: World, steps: seq<Step>, fates: Fates)
    requires UnreachedFrom(fates, w.tick)
    ensures Run(w, steps, fates).w.res == w.res
    ensures steps != [] && !steps[0].bestEffort ==> !Run(w, steps, fates).ok
    decreases |steps|
  {
    if steps != [] {
      var r := Send(w, steps[0].cmd, fates);
      if r.ok || steps[0].bestEffort {
        UnreachedRunChangesNothing(r.w, steps[1..], fates);
      }
    }
  }

  lemma UnreachedOne(p: Progress, svc: Svc, app: string, opts: ProvisionOptions, env: Env)
    requires UnreachedFrom(env.fates, p.world.tick)
    ensures var q := ProvisionOne(p, svc, app, opts, env);
      q.world.res == p.world.res && (svc != Signoz ==> q.entry == p.entry)
  {
    UnreachedRunChangesNothing(p.world, ProvisionSteps(svc, app, env.passwords(p.world.tick), opts), env.fates);
  }

  lemma {:induction false} UnreachedLoop(p: Progress, svcs: seq<Svc>, app: string, opts: ProvisionOptions, env: Env)
    requires UnreachedFrom(env.fates, p.world.tick)
    ensures var q := ProvisionLoop(p, svcs, app, opts, env);
      && q.world.res == p.world.res && q.world.tick >= p.world.tick
      && (AIStor in q.entry.services <==> AIStor in p.entry.services)
      && (AIStor in p.entry.services ==> q.entry.services[AIStor] == p.entry.services[AIStor])
    decreases |svcs|
  {
    if svcs != [] {
      OneTicks(p, svcs[0], app, opts, env);
      UnreachedOne(p, svcs[0], app, opts, env);
      UnreachedLoop(ProvisionOne(p, svcs[0], app, opts, env), svcs[1..], app, opts, env);
    }
  }

  // ---------------------------------------------------------- the two attempts

  // The entry's AIStor secret is not the broker's.
  predicate Spoilt(p: Progress)
  {
    AIStor in p.entry.services && !Accepts(p.world, p.entry.services[AIStor])
  }

  lemma OtherStepsSpareAIStor(p: Progress, svc: Svc, app: string, opts: ProvisionOptions, env: Env)
    requires svc != AIStor
    ensures var q := ProvisionOne(p, svc, app, opts, env);
      && (AIStor in q.entry.services <==> AIStor in p.entry.services)
      && (AIStor in p.entry.services ==> q.entry.services[AIStor] == p.entry.services[AIStor])
  {
  }

  // The first attempt, unhindered, stores its password.
  lemma FirstAttempt(p: Progress, app: string, opts: ProvisionOptions, env: Env)
    requires ValidName(app) && FaultFree(env.fates, p.world.tick, p.world.tick + 4)
    ensures var q := ProvisionOne(p, AIStor, app, opts, env);
      && q.world.tick == p.world.tick + 4
      && AIStor in q.entry.services
      && q.entry.services[AIStor] == AIStorConfig(app, app, env.passwords(p.world.tick), ENDPOINT)
      && MinioUser(app) in q.world.res && q.world.res[MinioUser(app)].secrets == {env.passwords(p.world.tick)}
  {
    AIStorRunIsChain(p.world, app, env.passwords(p.world.tick), opts, env.fates);
    ChainGoesThrough(p.world, app, env.passwords(p.world.tick), env.fates);
  }

  lemma AIStorRunIsChain(w: World, app: string, pw: string, opts: ProvisionOptions, fates: Fates)
    requires ValidName(app)
    ensures var r := Chain(w, MakeBucket(app), AddMinioUser(app, pw), CreatePolicy(PolicyName(app), app),
        AttachPolicy(PolicyName(app), app), fates);
      Provision(w, AIStor, app, pw, opts, fates)
        == Provisioned(r.w, if r.ok then Some(AIStorConfig(app, app, pw, ENDPOINT)) else None)
  {
    RunIsChain(w, ProvisionSteps(AIStor, app, pw, opts), fates);
  }

  lemma ChainGoesThrough(w: World, app: string, pw: string, fates: Fates)
    requires FaultFree(fates, w.tick, w.tick + 4)
    ensures var r := Chain(w, MakeBucket(app), AddMinioUser(app, pw), CreatePolicy(PolicyName(app), app),
      AttachPolicy(PolicyName(app), app), fates);
      && r.ok && r.w.tick == w.tick + 4
      && MinioUser(app) in r.w.res && r.w.res[MinioUser(app)].secrets == {pw}
  {
    var a := Send(w, MakeBucket(app), fates);
    assert a.ok && a.w.tick == w.tick + 1;
    var b := Send(a.w, AddMinioUser(app, pw), fates);
    assert b.ok && b.w.tick == w.tick + 2 && MinioUser(app) in b.w.res && b.w.res[MinioUser(app)].secrets == {pw};
    PolicyGoesThrough(b.w, app, fates);
  }

  lemma PolicyGoesThrough(w: World, app: string, fates: Fates)
    requires FaultFree(fates, w.tick, w.tick + 2) && MinioUser(app) in w.res
    ensures var c := Send(w, CreatePolicy(PolicyName(app), app), fates);
      var d := Send(c.w, AttachPolicy(PolicyName(app), app), fates);
      && c.ok && c.w.tick == w.tick + 1 && d.ok && d.w.tick == w.tick + 2
      && MinioUser(app) in d.w.res && d.w.res[MinioUser(app)].secrets == w.res[MinioUser(app)].secrets
  {
    var c := Send(w, CreatePolicy(PolicyName(app), app), fates);
    assert c.ok && Policy(PolicyName(app)) in c.w.res && MinioUser(app) in c.w.res;
  }

  // The second attempt, cut off after `mc admin user add`, leaves the broker
  // with its own password and the entry with the first.
  lemma SecondAttempt(p: Progress, app: string, opts: ProvisionOptions, m: nat)
    requires ValidName(app)
    ensures var env := CutOff(p.world.tick + 2, m);
      var q := ProvisionOne(p, AIStor, app, opts, env);
      && q.world.tick == p.world.tick + 3 && q.entry == p.entry
      && MinioUser(app) in q.world.res && q.world.res[MinioUser(app)].secrets == {Unary(p.world.tick + 1)}
  {
    var env := CutOff(p.world.tick + 2, m);
    ProvisionIsCut(p.world, app, env.passwords(p.world.tick), opts, env.fates);
  }

  lemma ProvisionIsCut(w: World, app: string, pw: string, opts: ProvisionOptions, fates: Fates)
    requires ValidName(app) && FaultFree(fates, w.tick, w.tick + 2) && fates(w.tick + 2) == Unreached
    ensures var r := Provision(w, AIStor, app, pw, opts, fates);
      && r.config == None && r.w.tick == w.tick + 3
      && MinioUser(app) in r.w.res && r.w.res[MinioUser(app)].secrets == {pw}
  {
    AIStorRunIsChain(w, app, pw, opts, fates);
    ChainIsCut(w, app, pw, fates);
  }

  lemma ChainIsCut(w: World, app: string, pw: string, fates: Fates)
    requires FaultFree(fates, w.tick, w.tick + 2) && fates(w.tick + 2) == Unreached
    ensures var r := Chain(w, MakeBucket(app), AddMinioUser(app, pw), CreatePolicy(PolicyName(app), app),
      AttachPolicy(PolicyName(app), app), fates);
      && !r.ok && r.w.tick == w.tick + 3
      && MinioUser(app) in r.w.res && r.w.res[MinioUser(app)].secrets == {pw}
  {
    var a := Send(w, MakeBucket(app), fates);
    assert a.ok && a.w.tick == w.tick + 1;
    var b := Send(a.w, AddMinioUser(app, pw), fates);
    assert b.ok && b.w.tick == w.tick + 2 && b.w.res[MinioUser(app)].secrets == {pw};
    var c := Send(b.w, CreatePolicy(PolicyName(app), app), fates);
    assert !c.ok && c.w.res == b.w.res;
  }

  // From the first attempt on.
  lemma {:induction false} SecondOccurrence(
      p: Progress, svcs: seq<Svc>, app: string, opts: ProvisionOptions, t1: nat, m: nat) returns (n: nat)
    requires ValidName(app) && AIStor in svcs && t1 < p.world.tick
    requires AIStor in p.entry.services && p.entry.services[AIStor] == AIStorConfig(app, app, Unary(t1 + 1), ENDPOINT)
    ensures var q := ProvisionLoop(p, svcs, app, opts, CutOff(n, m));
      p.world.tick <= n <= q.world.tick && Spoilt(q)
    decreases |svcs|
  {
    if svcs[0] == AIStor {
      n := p.world.tick + 2;
      SecondAttempt(p, app, opts, m);
      var p1 := ProvisionOne(p, AIStor, app, opts, CutOff(n, m));
      assert Unary(t1 + 1) != Unary(p.world.tick + 1);
      UnreachedLoop(p1, svcs[1..], app, opts, CutOff(n, m));
    } else {
      var p1 := ProvisionOne(p, svcs[0], app, opts, Faultless());
      OneTicks(p, svcs[0], app, opts, Faultless());
      OtherStepsSpareAIStor(p, svcs[0], app, opts, Faultless());
      n := SecondOccurrence(p1, svcs[1..], app, opts, t1, m);
      OneIsLocal(p, svcs[0], app, opts, Faultless(), CutOff(n, m));
    }
  }

  // A list with AIStor twice can be brought to spoil any entry without it.
  lemma {:induction false} FirstOccurrence(p: Progress, svcs: seq<Svc>, app: string, opts: ProvisionOptions, m: nat)
    returns (n: nat)
    requires ValidName(app) && !AtMostOnce(svcs, AIStor)
    ensures var q := ProvisionLoop(p, svcs, app, opts, CutOff(n, m));
      p.world.tick <= n <= q.world.tick && Spoilt(q)
    decreases |svcs|
  {
    var p1 := ProvisionOne(p, svcs[0], app, opts, Faultless());
    OneTicks(p, svcs[0], app, opts, Faultless());
    var i, j :| 0 <= i < j < |svcs| && svcs[i] == AIStor == svcs[j];
    if svcs[0] == AIStor {
      assert svcs[1..][j - 1] == AIStor;
      FirstAttempt(p, app, opts, Faultless());
      n := SecondOccurrence(p1, svcs[1..], app, opts, p.world.tick, m);
    } else {
      assert svcs[1..][i - 1] == AIStor == svcs[1..][j - 1];
      n := FirstOccurrence(p1, svcs[1..], app, opts, m);
    }
    OneIsLocal(p, svcs[0], app, opts, Faultless(), CutOff(n, m));
  }

  // In particular one whose entry is well typed, as the registry's are.
  lemma TargetBreaks(p: Progress, svcs: seq<Svc>, app: string, opts: ProvisionOptions, m: nat) returns (n: nat)
    requires ValidName(app) && WellTyped(p.entry) && !AtMostOnce(svcs, AIStor)
    ensures var q := ProvisionLoop(p, svcs, app, opts, CutOff(n, m));
      p.world.tick <= n <= q.world.tick && Spoilt(q) && WellTyped(q.entry)
  {
    n := FirstOccurrence(p, svcs, app, opts, m);
    LoopKeepsType(p, svcs, app, opts, CutOff(n, m));
  }

  lemma {:induction false} LoopKeepsType(p: Progress, svcs: seq<Svc>, app: string, opts: ProvisionOptions, env: Env)
    requires WellTyped(p.entry)
    ensures WellTyped(ProvisionLoop(p, svcs, app, opts, env).entry)
    decreases |svcs|
  {
    if svcs != [] {
      LoopKeepsType(ProvisionOne(p, svcs[0], app, opts, env), svcs[1..], app, opts, env);
    }
  }

  // ------------------------------------------------------------------ SetupApp

  lemma SpoiltTargetStays(st: State, ts: seq<Target>, svcs: seq<Svc>, full: bool, n: nat, name: string)
    requires n <= st.world.tick && name in st.disk
    requires AIStor in st.disk[name].services && !Accepts(st.world, st.disk[name].services[AIStor])
    requires WellTyped(st.disk[name])
    ensures !CredentialsHold(SetupRun(st, ts, svcs, full, CutOff(n, st.saves)).st.disk,
      SetupRun(st, ts, svcs, full, CutOff(n, st.saves)).st.world)
  {
    var env := CutOff(n, st.saves);
    var end := SetupRun(st, ts, svcs, full, env).st;
    if ts != [] {
      UnreachedLoop(Progress(st.world, FreshEntry(ts[0], env.clock(st.world.tick)), [], {}), svcs, ts[0].name,
        SetupOptions(ts[0], full, env), env);
    }
    assert end.disk == st.disk && end.world.res == st.world.res;
    assert !Accepts(end.world, end.disk[name].services[AIStor]);
  }

  // ------------------------------------------------- one target listed twice

  // Every command is answered and no password repeats.
  ghost predicate Answers(env: Env)
  {
    (forall t :: env.fates(t) == Answered) && forall t: nat :: env.passwords(t) == Unary(t + 1)
  }

  // Entry and broker hold the secret made at tick `t`.
  predicate Stamped(p: Progress, app: string, t: nat)
  {
    && AIStor in p.entry.services && p.entry.services[AIStor] == AIStorConfig(app, app, Unary(t + 1), ENDPOINT)
    && MinioUser(app) in p.world.res && p.world.res[MinioUser(app)].secrets == {Unary(t + 1)}
    && t < p.world.tick
  }

  lemma OneStamps(p: Progress, svc: Svc, app: string, opts: ProvisionOptions, env: Env, t0: nat) returns (t: nat)
    requires ValidName(app) && Answers(env) && t0 <= p.world.tick && (svc == AIStor || Stamped(p, app, t0))
    ensures t0 <= t && Stamped(ProvisionOne(p, svc, app, opts, env), app, t)
  {
    OneTicks(p, svc, app, opts, env);
    if svc == AIStor {
      t := p.world.tick;
      FirstAttempt(p, app, opts, env);
    } else {
      t := t0;
      OtherStepsSpareAIStor(p, svc, app, opts, env);
      ProvisionIsFramed(p.world, svc, app, env.passwords(p.world.tick), opts, env.fates);
      assert At(ProvisionOne(p, svc, app, opts, env).world, MinioUser(app)) == At(p.world, MinioUser(app));
    }
  }

  lemma {:induction false} LoopStamps(
      p: Progress, svcs: seq<Svc>, app: string, opts: ProvisionOptions, env: Env, t0: nat)
    returns (t: nat)
    requires ValidName(app) && Answers(env) && t0 <= p.world.tick && (AIStor in svcs || Stamped(p, app, t0))
    ensures t0 <= t && Stamped(ProvisionLoop(p, svcs, app, opts, env), app, t)
    decreases |svcs|
  {
    t := t0;
    if svcs != [] {
      if svcs[0] == AIStor || Stamped(p, app, t0) {
        t := OneStamps(p, svcs[0], app, opts, env, t0);
      } else {
        OneTicks(p, svcs[0], app, opts, env);
      }
      t := LoopStamps(ProvisionOne(p, svcs[0], app, opts, env), svcs[1..], app, opts, env, t);
    }
  }

  // The registry holds for the app a secret made before now.
  predicate Kept(st: State, name: string, t: nat)
  {
    && name in st.disk && WellTyped(st.disk[name]) && t < st.world.tick
    && AIStor in st.disk[name].services
    && st.disk[name].services[AIStor] == AIStorConfig(name, name, Unary(t + 1), ENDPOINT)
  }

  lemma TargetStamps(st: State, t: Target, svcs: seq<Svc>, full: bool, env: Env) returns (at: nat)
    requires ValidName(t.name) && Answers(env) && AIStor in svcs
    ensures st.world.tick <= at && Stamped(SetupProgress(st, t, svcs, full, env), t.name, at)
    ensures WellTyped(SetupProgress(st, t, svcs, full, env).entry)
  {
    var p0 := Progress(st.world, FreshEntry(t, env.clock(st.world.tick)), [], {});
    at := LoopStamps(p0, svcs, t.name, SetupOptions(t, full, env), env, st.world.tick);
    LoopKeepsType(p0, svcs, t.name, SetupOptions(t, full, env), env);
  }

  // The save of the second target of that name fails: the broker has the new
  // secret and the registry the old one.
  lemma UnsavedTargetBreaks(st: State, ts: seq<Target>, svcs: seq<Svc>, full: bool, env: Env, at: nat)
    requires ts != [] && ValidName(ts[0].name) && Kept(st, ts[0].name, at)
    requires Answers(env) && AIStor in svcs && !env.saves(st.saves)
    ensures var end := SetupRun(st, ts, svcs, full, env).st; !CredentialsHold(end.disk, end.world)
  {
    var now := TargetStamps(st, ts[0], svcs, full, env);
    var end := SetupRun(st, ts, svcs, full, env).st;
    assert |Unary(at + 1)| != |Unary(now + 1)|;
    assert !Accepts(end.world, end.disk[ts[0].name].services[AIStor]);
  }

  lemma {:induction false} SecondTargetBreaks(
      st: State, ts: seq<Target>, svcs: seq<Svc>, full: bool, env: Env, j: nat, at: nat)
    requires j < |ts| && (forall i :: 0 <= i < |ts| ==> ValidName(ts[i].name)) && Kept(st, ts[j].name, at)
    requires Answers(env) && AIStor in svcs && forall k: nat :: env.saves(k) <==> k < st.saves + j
    ensures var end := SetupRun(st, ts, svcs, full, env).st; !CredentialsHold(end.disk, end.world)
    decreases |ts|
  {
    if j == 0 {
      UnsavedTargetBreaks(st, ts, svcs, full, env, at);
    } else {
      var now := TargetStamps(st, ts[0], svcs, full, env);
      KeptOn(st, ts[0], svcs, full, env, ts[j].name, at, now);
      SecondTargetBreaks(AfterSetup(st, ts[0], svcs, full, env), ts[1..], svcs, full, env, j - 1,
        if ts[0].name == ts[j].name then now else at);
    }
  }

  lemma KeptOn(st: State, t: Target, svcs: seq<Svc>, full: bool, env: Env, name: string, at: nat, now: nat)
    requires Kept(st, name, at) && env.saves(st.saves) && st.world.tick <= now
    requires var p := SetupProgress(st, t, svcs, full, env); Stamped(p, t.name, now) && WellTyped(p.entry)
    ensures Kept(AfterSetup(st, t, svcs, full, env), name, if t.name == name then now else at)
  {
  }

  lemma {:induction false} FirstTargetBreaks(
      st: State, ts: seq<Target>, svcs: seq<Svc>, full: bool, env: Env, i: nat, j: nat)
    requires i < j < |ts| && ts[i].name == ts[j].name && forall k :: 0 <= k < |ts| ==> ValidName(ts[k].name)
    requires Answers(env) && AIStor in svcs && forall k: nat :: env.saves(k) <==> k < st.saves + j
    ensures var end := SetupRun(st, ts, svcs, full, env).st; !CredentialsHold(end.disk, end.world)
    decreases |ts|
  {
    var now := TargetStamps(st, ts[0], svcs, full, env);
    var st1 := AfterSetup(st, ts[0], svcs, full, env);
    if i == 0 {
      SecondTargetBreaks(st1, ts[1..], svcs, full, env, j - 1, now);
    } else {
      FirstTargetBreaks(st1, ts[1..], svcs, full, env, i - 1, j - 1);
    }
  }

  function Unsaved(m: nat): Env
  {
    Faultless().(saves := (k: nat) => k < m)
  }

  lemma UnsavedIsGood(m: nat)
    ensures GoodEnv(Unsaved(m)) && Answers(Unsaved(m)) && forall k: nat :: Unsaved(m).saves(k) <==> k < m
  {
    forall t: nat
      ensures Unsaved(m).passwords(t) != ""
    {
      assert |Unary(t + 1)| == t + 1;
    }
  }

  lemma TwinsBreak(st: State, app: string, services: seq<string>, envs: seq<string>, tag: string, full: bool)
    returns (env: Env)
    requires Inv(st) && ValidName(app) && Resolve(services).Some?
    requires TargetsError(st.disk, SetupTargets(app, envs, tag)) == None
    requires AIStor in Resolve(services).value && !Distinct(envs)
    ensures GoodEnv(env) && NothingRejected(env.fates)
    ensures !Inv(Setup(st, app, services, envs, tag, full, env).st)
  {
    var ts, svcs := SetupTargets(app, envs, tag), Resolve(services).value;
    NoTargetsError(st.disk, ts);
    ValidListIsTrimmed(services);
    var i, j :| 0 <= i < j < |envs| && envs[i] == envs[j];
    env := Unsaved(st.saves + j);
    UnsavedIsGood(st.saves + j);
    FirstTargetBreaks(st, ts, svcs, full, env, i, j);
    assert SetupError(st, app, services, ts, env) == None;
  }

  // Whatever the brokers, the passwords and the disk do, provided no rejected
  // Redis command passes for a success.
  ghost predicate SetupIsSafe(st: State, app: string, services: seq<string>, envs: seq<string>, tag: string, full: bool)
  {
    forall env :: GoodEnv(env) && SetupTellsTruth(st, app, services, envs, tag, full, env) ==>
      Inv(Setup(st, app, services, envs, tag, full, env).st)
  }

  // SetupApp keeps the invariant, so understood, exactly when the request names
  // AIStor at most once and does not name an environment twice along with it.
  lemma SetupIsSafeIff(st: State, app: string, services: seq<string>, envs: seq<string>, tag: string, full: bool)
    requires Inv(st) && ValidName(app) && services != [] && Resolve(services).Some?
    requires TargetsError(st.disk, SetupTargets(app, envs, tag)) == None
    ensures SetupIsSafe(st, app, services, envs, tag, full) <==> SetupAllowed(services, envs)
  {
    ResolveKeepsOnce(services);
    var svcs := Resolve(services).value;
    if SetupAllowed(services, envs) {
      forall env | GoodEnv(env) && SetupTellsTruth(st, app, services, envs, tag, full, env)
        ensures Inv(Setup(st, app, services, envs, tag, full, env).st)
      {
        SetupKeepsInv(st, app, services, envs, tag, full, env);
      }
    } else if AtMostOnce(svcs, AIStor) {
      OnceByName(services);
      var env := TwinsBreak(st, app, services, envs, tag, full);
      SetupReportsTruth(st, app, services, envs, tag, full, env);
    } else {
      var env := SetupBreaks(st, app, services, envs, tag, full);
      SetupReportsTruth(st, app, services, envs, tag, full, env);
    }
  }

  lemma OnceByName(services: seq<string>)
    requires Resolve(services).Some? && AtMostOnce(Resolve(services).value, AIStor)
    ensures forall i, j :: 0 <= i < j < |services| ==> !(services[i] == SvcName(AIStor) == services[j])
  {
    ResolveKeepsOnce(services);
  }

  lemma NoSetupError(st: State, app: string, services: seq<string>, ts: seq<Target>, n: nat, m: nat)
    requires ValidName(app) && services != [] && Resolve(services).Some? && TargetsError(st.disk, ts) == None
    ensures SetupError(st, app, services, ts, CutOff(n, m)) == None
  {
    ValidListIsTrimmed(services);
  }

  lemma SetupBreaks(st: State, app: string, services: seq<string>, envs: seq<string>, tag: string, full: bool)
    returns (env: Env)
    requires Inv(st) && ValidName(app) && services != [] && Resolve(services).Some?
    requires TargetsError(st.disk, SetupTargets(app, envs, tag)) == None
    requires !AtMostOnce(Resolve(services).value, AIStor)
    ensures GoodEnv(env) && NothingRejected(env.fates)
    ensures !Inv(Setup(st, app, services, envs, tag, full, env).st)
  {
    var ts, svcs := SetupTargets(app, envs, tag), Resolve(services).value;
    NoTargetsError(st.disk, ts);
    var n := SetupRunBreaks(st, ts, svcs, full);
    env := CutOff(n, st.saves + 1);
    CutIsGood(n, st.saves + 1);
    NoSetupError(st, app, services, ts, n, st.saves + 1);
  }

  lemma SetupRunBreaks(st: State, ts: seq<Target>, svcs: seq<Svc>, full: bool) returns (n: nat)
    requires ts != [] && ValidName(ts[0].name) && !AtMostOnce(svcs, AIStor)
    ensures var end := SetupRun(st, ts, svcs, full, CutOff(n, st.saves + 1)).st; !CredentialsHold(end.disk, end.world)
  {
    var t, m := ts[0], st.saves + 1;
    var p0 := Progress(st.world, FreshEntry(t, ""), [], {});
    var opts := ProvisionOptions(full, t.signozServiceName, t.signozEnv, "");
    n := TargetBreaks(p0, svcs, t.name, opts, m);
    var p := ProvisionLoop(p0, svcs, t.name, opts, CutOff(n, m));
    assert p == SetupProgress(st, t, svcs, full, CutOff(n, m));
    var st1 := State(st.disk[t.name := p.entry], m, p.world);
    SpoiltTargetStays(st1, ts[1..], svcs, full, n, t.name);
  }

  // --------------------------------------------------------------- AddServices

  lemma {:induction false} MissingKeepsTwice(entry: AppEntry, svcs: seq<Svc>)
    requires !AtMostOnce(svcs, AIStor) && AIStor !in entry.services
    ensures !AtMostOnce(Missing(entry, svcs), AIStor)
  {
    var rest := Missing(entry, svcs[1..]);
    MissingIsFilter(entry, svcs[1..]);
    TwiceOrOnceMore(svcs);
    if svcs[0] == AIStor && AIStor in svcs[1..] {
      TwiceFromTail(svcs[0], rest);
      assert Missing(entry, svcs) == [AIStor] + rest;
    } else {
      MissingKeepsTwice(entry, svcs[1..]);
      TwiceFromTail(svcs[0], rest);
      assert Missing(entry, svcs) == (if svcs[0] in entry.services then [] else [svcs[0]]) + rest;
      assert [] + rest == rest;
    }
  }

  lemma TwiceOrOnceMore(s: seq<Svc>)
    requires !AtMostOnce(s, AIStor)
    ensures s != [] && ((s[0] == AIStor && AIStor in s[1..]) || !AtMostOnce(s[1..], AIStor))
  {
    var i, j :| 0 <= i < j < |s| && s[i] == AIStor == s[j];
    assert s[1..][j - 1] == AIStor;
    if i > 0 {
      assert s[1..][i - 1] == AIStor;
    }
  }

  lemma TwiceFromTail(x: Svc, s: seq<Svc>)
    ensures !AtMostOnce(s, AIStor) ==> !AtMostOnce([x] + s, AIStor)
    ensures x == AIStor && AIStor in s ==> !AtMostOnce([x] + s, AIStor)
  {
    if !AtMostOnce(s, AIStor) {
      var i, j :| 0 <= i < j < |s| && s[i] == AIStor == s[j];
      assert ([x] + s)[i + 1] == AIStor == ([x] + s)[j + 1];
    }
    if x == AIStor && AIStor in s {
      var j :| 0 <= j < |s| && s[j] == AIStor;
      assert ([x] + s)[0] == AIStor == ([x] + s)[j + 1];
    }
  }

  lemma {:induction false} SpoiltEntryStays(st: State, ts: seq<Target>, svcs: seq<Svc>, n: nat, name: string)
    requires AllKnown(st.disk, ts) && n <= st.world.tick && name in st.disk
    requires AIStor in st.disk[name].services && !Accepts(st.world, st.disk[name].services[AIStor])
    requires WellTyped(st.disk[name])
    ensures var end := AddRun(st, ts, svcs, CutOff(n, st.saves)).st;
      end.disk == st.disk && !Accepts(end.world, st.disk[name].services[AIStor])
    decreases |ts|
  {
    var env := CutOff(n, st.saves);
    if ts != [] {
      var e0 := st.disk[ts[0].name];
      if Missing(e0, svcs) == [] {
        SpoiltEntryStays(st, ts[1..], svcs, n, name);
      } else {
        UnreachedLoop(
          Progress(st.world, e0, [], {}), Missing(e0, svcs), ts[0].name, SetupOptions(ts[0], false, env), env);
      }
    }
  }

  predicate Sound(disk: Apps, ts: seq<Target>)
  {
    AllWellTyped(disk) && AllKnown(disk, ts) && forall i :: 0 <= i < |ts| ==> ValidName(ts[i].name)
  }

  lemma {:induction false} AddRunBreaks(st: State, ts: seq<Target>, svcs: seq<Svc>, k: nat) returns (n: nat, m: nat)
    requires Sound(st.disk, ts) && !AtMostOnce(svcs, AIStor)
    requires k < |ts| && AIStor !in st.disk[ts[k].name].services
    ensures st.world.tick <= n && st.saves < m
    ensures var end := AddRun(st, ts, svcs, CutOff(n, m)).st; !CredentialsHold(end.disk, end.world)
    decreases |ts|, 1
  {
    var e0 := st.disk[ts[0].name];
    if AIStor !in e0.services {
      m := st.saves + 1;
      n := AtFirstTarget(st, ts, svcs);
    } else if Missing(e0, svcs) == [] {
      n, m := AddRunBreaks(st, ts[1..], svcs, k - 1);
    } else {
      n, m := AfterSoundTarget(st, ts, svcs, k);
    }
  }

  // A target whose save works is followed by the rest.
  lemma AddRunGoesOn(st: State, ts: seq<Target>, svcs: seq<Svc>, env: Env)
    requires AllKnown(st.disk, ts) && ts != [] && Missing(st.disk[ts[0].name], svcs) != [] && env.saves(st.saves)
    ensures var p := AddProgress(st, ts[0], svcs, env);
      AddRun(st, ts, svcs, env).st
        == AddRun(State(st.disk[ts[0].name := p.entry], st.saves + 1, p.world), ts[1..], svcs, env).st
  {
  }

  lemma AtFirstTarget(st: State, ts: seq<Target>, svcs: seq<Svc>) returns (n: nat)
    requires Sound(st.disk, ts) && !AtMostOnce(svcs, AIStor)
    requires ts != [] && AIStor !in st.disk[ts[0].name].services
    ensures st.world.tick <= n
    ensures var end := AddRun(st, ts, svcs, CutOff(n, st.saves + 1)).st; !CredentialsHold(end.disk, end.world)
  {
    var t, m := ts[0], st.saves + 1;
    var e0 := st.disk[t.name];
    assert WellTyped(e0);
    MissingKeepsTwice(e0, svcs);
    var p0 := Progress(st.world, e0, [], {});
    var opts := ProvisionOptions(false, t.signozServiceName, t.signozEnv, "");
    n := TargetBreaks(p0, Missing(e0, svcs), t.name, opts, m);
    var p := ProvisionLoop(p0, Missing(e0, svcs), t.name, opts, CutOff(n, m));
    assert p == AddProgress(st, t, svcs, CutOff(n, m));
    AddRunGoesOn(st, ts, svcs, CutOff(n, m));
    var st1 := State(st.disk[t.name := p.entry], m, p.world);
    SpoiltEntryStays(st1, ts[1..], svcs, n, t.name);
  }

  // A first target that has AIStor already goes through unhindered.
  lemma {:induction false} AfterSoundTarget(st: State, ts: seq<Target>, svcs: seq<Svc>, k: nat) returns (n: nat, m: nat)
    requires Sound(st.disk, ts) && !AtMostOnce(svcs, AIStor)
    requires 0 < k < |ts| && AIStor !in st.disk[ts[k].name].services
    requires AIStor in st.disk[ts[0].name].services && Missing(st.disk[ts[0].name], svcs) != []
    ensures st.world.tick <= n && st.saves < m
    ensures var end := AddRun(st, ts, svcs, CutOff(n, m)).st; !CredentialsHold(end.disk, end.world)
    decreases |ts|, 0
  {
    var t := ts[0];
    var e0 := st.disk[t.name];
    assert WellTyped(e0);
    var opts := ProvisionOptions(false, t.signozServiceName, t.signozEnv, "");
    var p0 := Progress(st.world, e0, [], {});
    var p := ProvisionLoop(p0, Missing(e0, svcs), t.name, opts, Faultless());
    LoopTicks(p0, Missing(e0, svcs), t.name, opts, Faultless());
    LoopKeepsType(p0, Missing(e0, svcs), t.name, opts, Faultless());
    var st1 := State(st.disk[t.name := p.entry], st.saves + 1, p.world);
    n, m := AddRunBreaks(st1, ts[1..], svcs, k - 1);
    LoopIsLocal(p0, Missing(e0, svcs), t.name, opts, Faultless(), CutOff(n, m));
    assert p == AddProgress(st, t, svcs, CutOff(n, m));
    AddRunGoesOn(st, ts, svcs, CutOff(n, m));
  }

  ghost predicate AddIsSafe(st: State, app: string, services: seq<string>, envs: seq<string>, tag: string)
  {
    forall env :: GoodEnv(env) && AddTellsTruth(st, app, services, envs, tag, env) ==>
      Inv(Add(st, app, services, envs, tag, env).st)
  }

  // So does AddServices exactly when the request names AIStor at most once or
  // every target has it already.
  lemma AddIsSafeIff(st: State, app: string, services: seq<string>, envs: seq<string>, tag: string)
    requires Inv(st) && ValidName(app) && services != [] && Resolve(services).Some?
    requires AllKnown(st.disk, AddTargets(st.disk, app, envs, tag))
    ensures AddIsSafe(st, app, services, envs, tag)
      <==> AddAllowed(st.disk, services, AddTargets(st.disk, app, envs, tag))
  {
    var ts := AddTargets(st.disk, app, envs, tag);
    if AddAllowed(st.disk, services, ts) {
      forall env | GoodEnv(env) && AddTellsTruth(st, app, services, envs, tag, env)
        ensures Inv(Add(st, app, services, envs, tag, env).st)
      {
        AddKeepsInv(st, app, services, envs, tag, env);
      }
    } else {
      var env := AddBreaks(st, app, services, envs, tag);
      AddReportsTruth(st, app, services, envs, tag, env);
    }
  }

  lemma AddBreaks(st: State, app: string, services: seq<string>, envs: seq<string>, tag: string) returns (env: Env)
    requires Inv(st) && ValidName(app) && services != [] && Resolve(services).Some?
    requires AllKnown(st.disk, AddTargets(st.disk, app, envs, tag))
    requires !AddAllowed(st.disk, services, AddTargets(st.disk, app, envs, tag))
    ensures GoodEnv(env) && NothingRejected(env.fates)
    ensures !Inv(Add(st, app, services, envs, tag, env).st)
  {
    var ts, svcs := AddTargets(st.disk, app, envs, tag), Resolve(services).value;
    ResolveKeepsOnce(services);
    ValidListIsTrimmed(services);
    var k :| 0 <= k < |ts| && AIStor !in st.disk[ts[k].name].services;
    var n, m := AddRunBreaks(st, ts, svcs, k);
    env := CutOff(n, m);
    CutIsGood(n, m);
    assert AddError(st, app, services, ts, env) == None;
  }
}
