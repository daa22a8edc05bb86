// Provision and Teardown of the six services: which commands they send, what
// they return for the registry, and what they can and cannot touch.
module ServiceOps {
  import opened Text
  import opened Names
  import opened Registry
  import opened Brokers

  function PolicyName(app: string): string { app + "-rw" }

  function KeyPattern(app: string, fullAccess: bool): string
  {
    if fullAccess then "~*" else "~" + Namespace(app) + "*"
  }

  function KeyPrefix(app: string, fullAccess: bool): string
  {
    if fullAccess then "" else Namespace(app)
  }

  datatype ProvisionOptions = ProvisionOptions(
    fullAccess: bool, signozServiceName: string, signozEnv: string, defaultEnv: string)

  // signoz.Provision; `defaultEnv` is the trimmed SIGNOZ_DEFAULT_ENV.
  function SignozConfigFor(app: string, opts: ProvisionOptions): Config
  {
    var serviceName := if opts.signozServiceName == "" then app else opts.signozServiceName;
    var environment :=
      if opts.signozEnv != "" then opts.signozEnv
      else if opts.defaultEnv != "" then opts.defaultEnv
      else "dev";
    SignozConfig(serviceName, environment)
  }

  const ENDPOINT := "http://aistor:9000"

  function ProvisionSteps(svc: Svc, app: string, password: string, opts: ProvisionOptions): seq<Step>
  {
    match svc
    case Postgres => [
      Must(CreateDatabase(app)),
      Must(CreateRole(app, password)),
      Must(GrantDatabase(app, app)),
      Must(GrantSchema(app, app))]
    case Redis => [
      Must(AclSetUser(app, password, KeyPattern(app, opts.fullAccess))),
      Must(AclSave)]
    case RabbitMQ => [
      Must(AddVhost(app)),
      Must(AddUser(app, password)),
      Must(SetPermissions(app, app)),
      Must(SetUserTags(app))]
    case AIStor => [
      Must(MakeBucket(app)),
      Must(AddMinioUser(app, password)),
      Must(CreatePolicy(PolicyName(app), app)),
      Must(AttachPolicy(PolicyName(app), app))]
    case MongoDB => [Must(CreateMongoUser(app, app, password))]
    case Signoz => []
  }

  function ProvisionedConfig(svc: Svc, app: string, password: string, opts: ProvisionOptions): Config
  {
    match svc
    case Postgres => PostgresConfig(app, app, password)
    case Redis => RedisConfig(app, password, KeyPrefix(app, opts.fullAccess))
    case RabbitMQ => RabbitMQConfig(app, app, password)
    case AIStor => AIStorConfig(app, app, password, ENDPOINT)
    case MongoDB => MongoDBConfig(app, app, password)
    case Signoz => SignozConfigFor(app, opts)
  }

  function TeardownSteps(svc: Svc, app: string): seq<Step>
  {
    match svc
    case Postgres => [
      Must(TerminateBackends(app)),
      Must(DropDatabase(app)),
      Must(DropRole(app))]
    case Redis => [
      Must(DeleteKeys(app + ":*")),
      Must(AclDelUser(app)),
      Must(AclSave)]
    case RabbitMQ => [
      Try(DeleteUser(app)),
      Must(DeleteVhost(app))]
    case AIStor => [
      Try(RemoveBucket(app)),
      Try(DetachPolicy(PolicyName(app), app)),
      Try(RemovePolicy(PolicyName(app))),
      Try(RemoveMinioUser(app))]
    case MongoDB => [Must(DropMongo(app))]
    case Signoz => []
  }

  // Every package but SignOz starts with ValidateAppName.
  predicate NameAccepted(svc: Svc, app: string)
  {
    svc == Signoz || ValidName(app)
  }

  datatype Provisioned = Provisioned(w: World, config: Option<Config>)

  function Provision(
      w: World, svc: Svc, app: string, password: string, opts: ProvisionOptions, fates: Fates): Provisioned
  {
    if !NameAccepted(svc, app) then Provisioned(w, None)
    else
      var r := Run(w, ProvisionSteps(svc, app, password, opts), fates);
      Provisioned(r.w, if r.ok then Some(ProvisionedConfig(svc, app, password, opts)) else None)
  }

  function Teardown(w: World, svc: Svc, app: string, fates: Fates): Reply
  {
    if !NameAccepted(svc, app) then Reply(w, false) else Run(w, TeardownSteps(svc, app), fates)
  }

  method ProvisionService(server: Server, svc: Svc, app: string, password: string, opts: ProvisionOptions)
    returns (config: Option<Config>)
    modifies server
    ensures Provisioned(server.w, config) == Provision(old(server.w), svc, app, password, opts, server.fates)
  {
    if !NameAccepted(svc, app) {
      return None;
    }
    var ok := server.DoAll(ProvisionSteps(svc, app, password, opts));
    config := if ok then Some(ProvisionedConfig(svc, app, password, opts)) else None;
  }

  method TeardownService(server: Server, svc: Svc, app: string) returns (ok: bool)
    modifies server
    ensures Reply(server.w, ok) == Teardown(old(server.w), svc, app, server.fates)
  {
    if !NameAccepted(svc, app) {
      return false;
    }
    ok := server.DoAll(TeardownSteps(svc, app));
  }

  // ------------------------------------------------------------------- frames

  // What the commands of one service for one app may change.
  predicate Touches(svc: Svc, app: string, r: Res)
  {
    match r
    case PgDatabase(n) => svc == Postgres && n == app
    case PgSession(n) => svc == Postgres && n == app
    case PgRole(n) => svc == Postgres && n == app
    case AclUser(n) => svc == Redis && n == app
    case RedisKey(k) => svc == Redis && Namespace(app) <= k
    case Vhost(n) => svc == RabbitMQ && n == app
    case RabbitUser(n) => svc == RabbitMQ && n == app
    case Permission(v, u) => svc == RabbitMQ && (v == app || u == app)
    case Bucket(n) => svc == AIStor && n == app
    case MinioUser(n) => svc == AIStor && n == app
    case Policy(n) => svc == AIStor && n == PolicyName(app)
    case MongoDb(n) => svc == MongoDB && n == app
    case MongoUser(db, u) => svc == MongoDB && db == app && u == app
  }

  // A command that stays inside the resources of one service of one app.
  predicate InScope(c: Cmd, svc: Svc, app: string)
  {
    match c
    case CreateDatabase(db) => svc == Postgres && db == app
    case CreateRole(role, _) => svc == Postgres && role == app
    case GrantDatabase(db, role) => svc == Postgres && db == app && role == app
    case GrantSchema(db, role) => svc == Postgres && db == app && role == app
    case TerminateBackends(db) => svc == Postgres && db == app
    case DropDatabase(db) => svc == Postgres && db == app
    case DropRole(role) => svc == Postgres && role == app
    case AclSetUser(user, _, _) => svc == Redis && user == app
    case AclSave => svc == Redis
    case AclDelUser(user) => svc == Redis && user == app
    case DeleteKeys(pattern) => svc == Redis && pattern == app + ":*"
    case ListVhosts => svc == RabbitMQ
    case ListUsers => svc == RabbitMQ
    case AddVhost(vhost) => svc == RabbitMQ && vhost == app
    case AddUser(user, _) => svc == RabbitMQ && user == app
    case ChangePassword(user, _) => svc == RabbitMQ && user == app
    case SetPermissions(vhost, user) => svc == RabbitMQ && vhost == app && user == app
    case SetUserTags(user) => svc == RabbitMQ && user == app
    case DeleteUser(user) => svc == RabbitMQ && user == app
    case DeleteVhost(vhost) => svc == RabbitMQ && vhost == app
    case MakeBucket(bucket) => svc == AIStor && bucket == app
    case AddMinioUser(user, _) => svc == AIStor && user == app
    case CreatePolicy(policy, bucket) => svc == AIStor && policy == PolicyName(app) && bucket == app
    case AttachPolicy(policy, user) => svc == AIStor && policy == PolicyName(app) && user == app
    case RemoveBucket(bucket) => svc == AIStor && bucket == app
    case DetachPolicy(policy, user) => svc == AIStor && policy == PolicyName(app) && user == app
    case RemovePolicy(policy) => svc == AIStor && policy == PolicyName(app)
    case RemoveMinioUser(user) => svc == AIStor && user == app
    case CreateMongoUser(db, user, _) => svc == MongoDB && db == app && user == app
    case UpsertMongoUser(db, user, _) => svc == MongoDB && db == app && user == app
    case DropMongo(db) => svc == MongoDB && db == app
  }

  // Outside the touched resources the two states agree.
  ghost predicate Framed(w: World, w': World, svc: Svc, app: string)
  {
    forall r :: !Touches(svc, app, r) ==> At(w', r) == At(w, r)
  }

  function SavedAcl(w: World, user: string): Option<Resource>
  {
    if user in w.savedAcl then Some(w.savedAcl[user]) else None
  }

  // Another user's entry in the ACL file stays or becomes the current one.
  ghost predicate SavedFramed(w: World, w': World, app: string)
  {
    forall n :: n != app ==> SavedAcl(w', n) == SavedAcl(w, n) || SavedAcl(w', n) == At(w, AclUser(n))
  }

  lemma ExecIsFramed(w: World, c: Cmd, svc: Svc, app: string)
    requires ValidName(app) && InScope(c, svc, app) && Exec(w, c).Some?
    ensures Framed(w, Exec(w, c).value, svc, app)
  {
    if c.DeleteKeys? {
      forall r | r in MatchingKeys(w, c.pattern)
        ensures Touches(svc, app, r)
      {
        PatternIsPrefix(app, r.key);
      }
    }
  }

  lemma SendIsFramed(w: World, c: Cmd, fates: Fates, svc: Svc, app: string)
    requires ValidName(app) && InScope(c, svc, app)
    ensures var w' := Send(w, c, fates).w;
      Framed(w, w', svc, app) && SavedFramed(w, w', app) && (svc != Redis ==> w'.savedAcl == w.savedAcl)
  {
    if Exec(w, c).Some? {
      ExecIsFramed(w, c, svc, app);
    }
  }

  // A run of commands for one service of one app, however it fails, changes
  // nothing of any other app or of any other service of this app.
  lemma {:induction false} RunIsFramed(w: World, steps: seq<Step>, fates: Fates, svc: Svc, app: string)
    requires ValidName(app)
    requires forall i :: 0 <= i < |steps| ==> InScope(steps[i].cmd, svc, app)
    ensures var w' := Run(w, steps, fates).w;
      Framed(w, w', svc, app) && SavedFramed(w, w', app) && (svc != Redis ==> w'.savedAcl == w.savedAcl)
    decreases |steps|
  {
    if steps != [] {
      SendIsFramed(w, steps[0].cmd, fates, svc, app);
      var r := Send(w, steps[0].cmd, fates);
      if r.ok || steps[0].bestEffort {
        RunIsFramed(r.w, steps[1..], fates, svc, app);
        forall x | !Touches(svc, app, x)
          ensures At(Run(w, steps, fates).w, x) == At(w, x)
        {
          assert At(r.w, x) == At(w, x);
        }
        forall n | n != app
          ensures At(r.w, AclUser(n)) == At(w, AclUser(n))
        {
          assert !Touches(svc, app, AclUser(n));
        }
      }
    }
  }

  lemma ProvisionIsFramed(
      w: World, svc: Svc, app: string, password: string, opts: ProvisionOptions, fates: Fates)
    ensures var w' := Provision(w, svc, app, password, opts, fates).w;
      Framed(w, w', svc, app) && SavedFramed(w, w', app) && (svc != Redis ==> w'.savedAcl == w.savedAcl)
  {
    if ValidName(app) {
      RunIsFramed(w, ProvisionSteps(svc, app, password, opts), fates, svc, app);
    }
  }

  lemma TeardownIsFramed(w: World, svc: Svc, app: string, fates: Fates)
    ensures var w' := Teardown(w, svc, app, fates).w;
      Framed(w, w', svc, app) && SavedFramed(w, w', app) && (svc != Redis ==> w'.savedAcl == w.savedAcl)
  {
    if ValidName(app) {
      RunIsFramed(w, TeardownSteps(svc, app), fates, svc, app);
    }
  }

  // -------------------------------------------------------------- credentials

  predicate AclAccepts(v: Resource, password: string, pattern: string)
  {
    password in v.secrets && pattern in v.grants
  }

  // The broker accepts the credential and gives it the rights it stands for.
  // For Redis both now and after a restart from the saved ACL file.
  predicate Accepts(w: World, cfg: Config)
  {
    match cfg
    case PostgresConfig(db, user, password) =>
      && PgDatabase(db) in w.res && {user, SchemaGrant(user)} <= w.res[PgDatabase(db)].grants
      && PgRole(user) in w.res && w.res[PgRole(user)].secrets == {password}
    case RedisConfig(user, password, prefix) =>
      && AclUser(user) in w.res && AclAccepts(w.res[AclUser(user)], password, "~" + prefix + "*")
      && user in w.savedAcl && AclAccepts(w.savedAcl[user], password, "~" + prefix + "*")
    case RabbitMQConfig(vhost, user, password) =>
      && Vhost(vhost) in w.res
      && RabbitUser(user) in w.res && w.res[RabbitUser(user)].secrets == {password}
      && w.res[RabbitUser(user)].grants == {"management"}
      && At(w, Permission(vhost, user)) == Some(EMPTY.(grants := ALL_RIGHTS))
    case AIStorConfig(bucket, user, secret, _) =>
      && Bucket(bucket) in w.res
      && At(w, Policy(PolicyName(bucket))) == Some(EMPTY.(grants := {bucket}))
      && MinioUser(user) in w.res && w.res[MinioUser(user)].secrets == {secret}
      && PolicyName(bucket) in w.res[MinioUser(user)].grants
    case MongoDBConfig(db, user, password) =>
      At(w, MongoUser(db, user)) == Some(Resource({password}, MongoRoles(db), ""))
    case SignozConfig(_, _) => true
  }

  // A configuration that names nothing but its own app.
  predicate NamesOnly(app: string, cfg: Config)
  {
    match cfg
    case PostgresConfig(db, user, _) => db == app && user == app
    case RedisConfig(user, _, prefix) => user == app && (prefix == Namespace(app) || prefix == "")
    case RabbitMQConfig(vhost, user, _) => vhost == app && user == app
    case AIStorConfig(bucket, user, _, _) => bucket == app && user == app
    case MongoDBConfig(db, user, _) => db == app && user == app
    case SignozConfig(_, _) => true
  }

  // What Provision returns names only the app.
  lemma ProvisionIsOwn(w: World, svc: Svc, app: string, password: string, opts: ProvisionOptions, fates: Fates)
    requires Provision(w, svc, app, password, opts, fates).config.Some?
    ensures var cfg := Provision(w, svc, app, password, opts, fates).config.value;
      Fits(svc, cfg) && NamesOnly(app, cfg)
  {
  }

  // A Redis Provision begun at tick `t` reports success.
  predicate RedisReports(fates: Fates, t: nat)
  {
    (fates(t).Answered? || fates(t).Rejected?) && (fates(t + 1).Answered? || fates(t + 1).Rejected?)
  }

  // Such a report is true: neither command was rejected.
  predicate Truthful(fates: Fates, t: nat)
  {
    RedisReports(fates, t) ==> fates(t).Answered? && fates(t + 1).Answered?
  }

  // What a successful Provision returns is accepted; for Redis, when the
  // success is not an error reply that redis-cli passed over.
  lemma ProvisionIsAccepted(
      w: World, svc: Svc, app: string, password: string, opts: ProvisionOptions, fates: Fates)
    requires Provision(w, svc, app, password, opts, fates).config.Some?
    requires svc == Redis ==> Truthful(fates, w.tick)
    ensures var p := Provision(w, svc, app, password, opts, fates);
      Fits(svc, p.config.value) && NamesOnly(app, p.config.value) && Accepts(p.w, p.config.value)
  {
    var steps := ProvisionSteps(svc, app, password, opts);
    match svc
    case Postgres => PostgresIsAccepted(w, app, password, steps, fates);
    case Redis => RedisIsAcceptedIff(w, app, password, opts, fates);
    case RabbitMQ => RabbitIsAccepted(w, app, password, steps, fates);
    case AIStor => AIStorIsAccepted(w, app, password, steps, fates);
    case MongoDB => RunOne(w, steps, fates);
    case Signoz =>
  }

  // The credential is in force already, in memory and in the ACL file.
  predicate LiveHas(w: World, user: string, password: string, pattern: string)
  {
    AclUser(user) in w.res && AclAccepts(w.res[AclUser(user)], password, pattern)
  }

  predicate FileHas(w: World, user: string, password: string, pattern: string)
  {
    user in w.savedAcl && AclAccepts(w.savedAcl[user], password, pattern)
  }

  predicate FreshSecret(w: World, user: string, password: string)
  {
    && (AclUser(user) in w.res ==> password !in w.res[AclUser(user)].secrets)
    && (user in w.savedAcl ==> password !in w.savedAcl[user].secrets)
  }

  // A rejected SETUSER or SAVE looks done to the program. Redis accepts what
  // Provision returns exactly when each command was answered or had nothing to
  // add; with a new password, exactly when the report of success is true.
  lemma RedisIsAcceptedIff(w: World, app: string, password: string, opts: ProvisionOptions, fates: Fates)
    ensures var p := Provision(w, Redis, app, password, opts, fates);
      && (p.config.Some? <==> ValidName(app) && RedisReports(fates, w.tick))
      && (p.config.Some? ==>
            (Accepts(p.w, p.config.value) <==>
              && (fates(w.tick).Answered? || LiveHas(w, app, password, KeyPattern(app, opts.fullAccess)))
              && (fates(w.tick + 1).Answered? || FileHas(w, app, password, KeyPattern(app, opts.fullAccess)))))
      && (p.config.Some? && FreshSecret(w, app, password) ==>
            (Accepts(p.w, p.config.value) <==> Truthful(fates, w.tick)))
  {
    if ValidName(app) {
      RedisRun(w, app, password, opts, fates);
      if RedisReports(fates, w.tick) {
        SetUserThenSave(w, app, password, KeyPattern(app, opts.fullAccess), fates);
      }
      KeyPatternIsPrefixed(app, opts.fullAccess);
    }
  }

  lemma RedisRun(w: World, app: string, password: string, opts: ProvisionOptions, fates: Fates)
    requires ValidName(app)
    ensures var a := Send(w, AclSetUser(app, password, KeyPattern(app, opts.fullAccess)), fates);
      var b := Send(a.w, AclSave, fates);
      Provision(w, Redis, app, password, opts, fates)
        == if a.ok && b.ok then Provisioned(b.w, Some(RedisConfig(app, password, KeyPrefix(app, opts.fullAccess))))
           else Provisioned(if a.ok then b.w else a.w, None)
  {
    var s := ProvisionSteps(Redis, app, password, opts);
    MustStep(w, s, fates);
    RunOne(Send(w, s[0].cmd, fates).w, s[1..], fates);
  }

  lemma SetUserThenSave(w: World, app: string, password: string, pattern: string, fates: Fates)
    requires RedisReports(fates, w.tick)
    ensures var a := Send(w, AclSetUser(app, password, pattern), fates).w;
      var b := Send(a, AclSave, fates).w;
      && (LiveHas(b, app, password, pattern) <==> fates(w.tick).Answered? || LiveHas(w, app, password, pattern))
      && (FileHas(b, app, password, pattern) <==>
            if fates(w.tick + 1).Answered? then LiveHas(b, app, password, pattern)
              else FileHas(w, app, password, pattern))
  {
    var a := Send(w, AclSetUser(app, password, pattern), fates).w;
    assert app in CurrentAcl(a) <==> AclUser(app) in a.res;
  }

  lemma PostgresIsAccepted(w: World, app: string, password: string, s: seq<Step>, fates: Fates)
    requires s == [Must(CreateDatabase(app)), Must(CreateRole(app, password)), Must(GrantDatabase(app, app)),
      Must(GrantSchema(app, app))]
    requires Run(w, s, fates).ok
    ensures Accepts(Run(w, s, fates).w, PostgresConfig(app, app, password))
  {
    RunFour(w, s, fates);
  }

  lemma RabbitIsAccepted(w: World, app: string, password: string, s: seq<Step>, fates: Fates)
    requires s == [Must(AddVhost(app)), Must(AddUser(app, password)), Must(SetPermissions(app, app)),
      Must(SetUserTags(app))]
    requires Run(w, s, fates).ok
    ensures Accepts(Run(w, s, fates).w, RabbitMQConfig(app, app, password))
  {
    RunFour(w, s, fates);
    var b := Send(Send(w, AddVhost(app), fates).w, AddUser(app, password), fates);
    assert Vhost(app) in b.w.res && At(b.w, RabbitUser(app)) == Some(EMPTY.(secrets := {password}));
    RabbitRightsAreAccepted(b.w, app, password, fates);
  }

  lemma RabbitRightsAreAccepted(w: World, app: string, password: string, fates: Fates)
    requires Vhost(app) in w.res && At(w, RabbitUser(app)) == Some(EMPTY.(secrets := {password}))
    requires Send(w, SetPermissions(app, app), fates).ok
    requires Send(Send(w, SetPermissions(app, app), fates).w, SetUserTags(app), fates).ok
    ensures Accepts(Send(Send(w, SetPermissions(app, app), fates).w, SetUserTags(app), fates).w,
      RabbitMQConfig(app, app, password))
  {
  }

  lemma AIStorIsAccepted(w: World, app: string, password: string, s: seq<Step>, fates: Fates)
    requires s == [Must(MakeBucket(app)), Must(AddMinioUser(app, password)),
      Must(CreatePolicy(PolicyName(app), app)), Must(AttachPolicy(PolicyName(app), app))]
    requires Run(w, s, fates).ok
    ensures Accepts(Run(w, s, fates).w, AIStorConfig(app, app, password, ENDPOINT))
  {
    RunFour(w, s, fates);
    AIStorChain(w, app, password, fates);
  }

  predicate AccountMade(w: World, app: string, password: string)
  {
    Bucket(app) in w.res && MinioUser(app) in w.res && w.res[MinioUser(app)].secrets == {password}
  }

  lemma AccountIsMade(w: World, app: string, password: string, fates: Fates)
    ensures var a := Send(w, MakeBucket(app), fates);
      var b := Send(a.w, AddMinioUser(app, password), fates);
      a.ok && b.ok ==> AccountMade(b.w, app, password)
  {
  }

  lemma PolicyIsAttached(w: World, app: string, password: string, fates: Fates)
    requires AccountMade(w, app, password)
    ensures var c := Send(w, CreatePolicy(PolicyName(app), app), fates);
      var d := Send(c.w, AttachPolicy(PolicyName(app), app), fates);
      c.ok && d.ok ==> Accepts(d.w, AIStorConfig(app, app, password, ENDPOINT))
  {
  }

  lemma AIStorChain(w: World, app: string, password: string, fates: Fates)
    ensures var a := Send(w, MakeBucket(app), fates);
      var b := Send(a.w, AddMinioUser(app, password), fates);
      var c := Send(b.w, CreatePolicy(PolicyName(app), app), fates);
      var d := Send(c.w, AttachPolicy(PolicyName(app), app), fates);
      a.ok && b.ok && c.ok && d.ok ==> Accepts(d.w, AIStorConfig(app, app, password, ENDPOINT))
  {
    AccountIsMade(w, app, password, fates);
    var a := Send(w, MakeBucket(app), fates);
    var b := Send(a.w, AddMinioUser(app, password), fates);
    if a.ok && b.ok {
      PolicyIsAttached(b.w, app, password, fates);
    }
  }

  lemma KeyPatternIsPrefixed(app: string, fullAccess: bool)
    ensures KeyPattern(app, fullAccess) == "~" + KeyPrefix(app, fullAccess) + "*"
  {
  }

  lemma RunOne(w: World, s: seq<Step>, fates: Fates)
    requires |s| == 1 && !s[0].bestEffort
    ensures Run(w, s, fates) == Send(w, s[0].cmd, fates)
  {
  }

  lemma RunTwo(w: World, s: seq<Step>, fates: Fates)
    requires |s| == 2 && !s[0].bestEffort && !s[1].bestEffort && Run(w, s, fates).ok
    ensures var a := Send(w, s[0].cmd, fates);
      a.ok && Run(w, s, fates) == Send(a.w, s[1].cmd, fates)
  {
    var a := Send(w, s[0].cmd, fates);
    RunOne(a.w, s[1..], fates);
  }

  // Every command of a run that is sent takes its turn.
  lemma {:induction false} RunTicks(w: World, steps: seq<Step>, fates: Fates)
    ensures Run(w, steps, fates).w.tick >= w.tick + if steps == [] then 0 else 1
    decreases |steps|
  {
    if steps != [] {
      var r := Send(w, steps[0].cmd, fates);
      if r.ok || steps[0].bestEffort {
        RunTicks(r.w, steps[1..], fates);
      }
    }
  }

  // Four commands that must all succeed, one after the other.
  function Chain(w: World, c0: Cmd, c1: Cmd, c2: Cmd, c3: Cmd, fates: Fates): Reply
  {
    var a := Send(w, c0, fates);
    if !a.ok then a
    else
      var b := Send(a.w, c1, fates);
      if !b.ok then b
      else
        var c := Send(b.w, c2, fates);
        if !c.ok then c else Send(c.w, c3, fates)
  }

  lemma RunIsChain(w: World, s: seq<Step>, fates: Fates)
    requires |s| == 4 && forall i :: 0 <= i < 4 ==> !s[i].bestEffort
    ensures Run(w, s, fates) == Chain(w, s[0].cmd, s[1].cmd, s[2].cmd, s[3].cmd, fates)
  {
    MustStep(w, s, fates);
    var a := Send(w, s[0].cmd, fates);
    MustStep(a.w, s[1..], fates);
    var b := Send(a.w, s[1].cmd, fates);
    assert s[1..][1..] == s[2..];
    MustStep(b.w, s[2..], fates);
    var c := Send(b.w, s[2].cmd, fates);
    assert s[2..][1..] == s[3..];
    RunOne(c.w, s[3..], fates);
  }

  lemma MustStep(w: World, s: seq<Step>, fates: Fates)
    requires |s| >= 1 && !s[0].bestEffort
    ensures Run(w, s, fates) == var a := Send(w, s[0].cmd, fates); if a.ok then Run(a.w, s[1..], fates) else a
  {
  }

  lemma RunFour(w: World, s: seq<Step>, fates: Fates)
    requires |s| == 4 && (forall i :: 0 <= i < 4 ==> !s[i].bestEffort) && Run(w, s, fates).ok
    ensures var a := Send(w, s[0].cmd, fates);
      var b := Send(a.w, s[1].cmd, fates);
      var c := Send(b.w, s[2].cmd, fates);
      a.ok && b.ok && c.ok && Run(w, s, fates) == Send(c.w, s[3].cmd, fates)
  {
    RunIsChain(w, s, fates);
  }

  // A credential of another app, or of another service of this app, is out of
  // reach of anything Framed.
  lemma FramedKeepsCredential(w: World, w': World, svc: Svc, app: string, other: string, s: Svc, cfg: Config)
    requires Framed(w, w', svc, app) && SavedFramed(w, w', app)
    requires svc != Redis ==> w'.savedAcl == w.savedAcl
    requires other != app || s != svc
    requires Fits(s, cfg) && NamesOnly(other, cfg) && Accepts(w, cfg)
    ensures Accepts(w', cfg)
  {
    match cfg
    case PostgresConfig(db, user, _) =>
      assert At(w', PgDatabase(db)) == At(w, PgDatabase(db));
      assert At(w', PgRole(user)) == At(w, PgRole(user));
    case RedisConfig(user, _, _) =>
      assert At(w', AclUser(user)) == At(w, AclUser(user));
      assert SavedAcl(w, user).Some?;
    case RabbitMQConfig(_, _, _) => FramedKeepsRabbit(w, w', svc, app, other, s, cfg);
    case AIStorConfig(_, _, _, _) => FramedKeepsAIStor(w, w', svc, app, other, s, cfg);
    case MongoDBConfig(db, user, _) =>
      assert At(w', MongoUser(db, user)) == At(w, MongoUser(db, user));
    case SignozConfig(_, _) =>
  }

  lemma FramedKeepsRabbit(w: World, w': World, svc: Svc, app: string, other: string, s: Svc, cfg: Config)
    requires Framed(w, w', svc, app) && (other != app || s != svc)
    requires cfg.RabbitMQConfig? && Fits(s, cfg) && NamesOnly(other, cfg) && Accepts(w, cfg)
    ensures Accepts(w', cfg)
  {
    assert At(w', Vhost(other)) == At(w, Vhost(other));
    assert At(w', RabbitUser(other)) == At(w, RabbitUser(other));
    assert At(w', Permission(other, other)) == At(w, Permission(other, other));
  }

  lemma FramedKeepsAIStor(w: World, w': World, svc: Svc, app: string, other: string, s: Svc, cfg: Config)
    requires Framed(w, w', svc, app) && (other != app || s != svc)
    requires cfg.AIStorConfig? && Fits(s, cfg) && NamesOnly(other, cfg) && Accepts(w, cfg)
    ensures Accepts(w', cfg)
  {
    PolicyNamesAreDistinct(app, other);
    assert At(w', Bucket(other)) == At(w, Bucket(other));
    assert At(w', MinioUser(other)) == At(w, MinioUser(other));
    assert At(w', Policy(PolicyName(other))) == At(w, Policy(PolicyName(other)));
  }

  // Provisioning a service again, however it ends, leaves the credential in
  // force: the broker refuses to create what exists, and Redis only adds to
  // it. AIStor is the exception: its user gets the new secret at once.
  lemma ReprovisionKeepsCredential(
      w: World, svc: Svc, app: string, password: string, opts: ProvisionOptions, fates: Fates, cfg: Config)
    requires svc != AIStor && ValidName(app) && Fits(svc, cfg) && NamesOnly(app, cfg) && Accepts(w, cfg)
    ensures Accepts(Provision(w, svc, app, password, opts, fates).w, cfg)
  {
    var s := ProvisionSteps(svc, app, password, opts);
    match svc
    case Postgres => MustStep(w, s, fates);
    case Redis => RedisKeepsCredential(w, app, password, s, fates, cfg);
    case RabbitMQ => RabbitKeepsCredential(w, app, password, s, fates, cfg);
    case MongoDB => MustStep(w, s, fates);
    case Signoz =>
  }

  lemma RedisKeepsCredential(w: World, app: string, password: string, s: seq<Step>, fates: Fates, cfg: Config)
    requires |s| == 2 && s[0].cmd.AclSetUser? && s[0].cmd.user == app && s[1].cmd == AclSave
    requires !s[0].bestEffort && !s[1].bestEffort
    requires cfg.RedisConfig? && NamesOnly(app, cfg) && Accepts(w, cfg)
    ensures Accepts(Run(w, s, fates).w, cfg)
  {
    MustStep(w, s, fates);
    var a := Send(w, s[0].cmd, fates);
    assert Accepts(a.w, cfg);
    if a.ok {
      RunOne(a.w, s[1..], fates);
    }
  }

  lemma RabbitKeepsCredential(w: World, app: string, password: string, s: seq<Step>, fates: Fates, cfg: Config)
    requires |s| == 4 && s[0] == Must(AddVhost(app)) && s[1] == Must(AddUser(app, password))
    requires cfg.RabbitMQConfig? && NamesOnly(app, cfg) && Accepts(w, cfg)
    ensures Accepts(Run(w, s, fates).w, cfg)
  {
    MustStep(w, s, fates);
    var a := Send(w, s[0].cmd, fates);
    assert a.w.res == w.res;
    if a.ok {
      MustStep(a.w, s[1..], fates);
      assert Send(a.w, s[1].cmd, fates).w.res == w.res;
    }
  }

  lemma PolicyNamesAreDistinct(a: string, b: string)
    ensures PolicyName(a) == PolicyName(b) ==> a == b
  {
    if PolicyName(a) == PolicyName(b) {
      assert a == PolicyName(a)[..|PolicyName(a)| - 3] == b;
    }
  }

  // ---------------------------------------------------------- Redis isolation

  // The keys an ACL user can reach.
  predicate Reaches(v: Resource, key: string)
  {
    exists p :: p in v.grants && |p| > 0 && p[0] == '~' && Glob(p[1..], key)
  }

  // An ACL user confined to the keys of its own app.
  ghost predicate Confined(w: World, app: string)
  {
    AclUser(app) in w.res && forall k :: Reaches(w.res[AclUser(app)], k) ==> Namespace(app) <= k
  }

  lemma FreshPatternReaches(app: string, key: string)
    requires ValidName(app)
    ensures Glob(KeyPattern(app, false)[1..], key) <==> Namespace(app) <= key
  {
    assert KeyPattern(app, false)[1..] == app + ":*";
    PatternIsPrefix(app, key);
  }

  // SETUSER adds patterns and never clears them. A plain (not full-access)
  // Provision that reports success therefore confines the app exactly when no
  // ACL user of that name was left behind with wider reach and, if there was
  // none at all, SETUSER was not rejected.
  lemma PlainProvisionConfinesIff(w: World, app: string, password: string, opts: ProvisionOptions, fates: Fates)
    requires !opts.fullAccess && ValidName(app)
    requires Provision(w, Redis, app, password, opts, fates).config.Some?
    ensures Confined(Provision(w, Redis, app, password, opts, fates).w, app) <==>
      if AclUser(app) in w.res then forall k :: Reaches(w.res[AclUser(app)], k) ==> Namespace(app) <= k
      else fates(w.tick).Answered?
  {
    var w' := Provision(w, Redis, app, password, opts, fates).w;
    var before := if AclUser(app) in w.res then w.res[AclUser(app)] else EMPTY;
    PlainProvisionAddsPattern(w, app, password, opts, fates);
    if fates(w.tick).Answered? {
      var after := w'.res[AclUser(app)];
      forall k
        ensures Reaches(after, k) <==> Reaches(before, k) || Namespace(app) <= k
      {
        FreshPatternReaches(app, k);
        assert KeyPattern(app, false) in after.grants;
      }
    }
  }

  lemma PlainProvisionAddsPattern(w: World, app: string, password: string, opts: ProvisionOptions, fates: Fates)
    requires !opts.fullAccess && Provision(w, Redis, app, password, opts, fates).config.Some?
    ensures var w' := Provision(w, Redis, app, password, opts, fates).w;
      var before := if AclUser(app) in w.res then w.res[AclUser(app)] else EMPTY;
      if fates(w.tick).Answered?
      then AclUser(app) in w'.res && w'.res[AclUser(app)].grants == before.grants + {KeyPattern(app, false)}
      else w'.res == w.res
  {
    RedisRun(w, app, password, opts, fates);
  }

  // The failing family is not empty: an ACL user with `~*` survives a teardown
  // whose DELUSER did not go through, and a later plain Provision of the same name
  // leaves it with access to every key.
  lemma LeftoverFullAccessIsNotConfined(app: string, password: string, opts: ProvisionOptions, fates: Fates)
    requires ValidName(app) && !opts.fullAccess && FaultFree(fates, 0, 2)
    ensures var w := World(map[AclUser(app) := EMPTY.(grants := {KeyPattern(app, true)})], map[], 0);
      var p := Provision(w, Redis, app, password, opts, fates);
      p.config.Some? && NamesOnly(app, p.config.value) && !Confined(p.w, app)
  {
    var v := EMPTY.(grants := {KeyPattern(app, true)});
    var w := World(map[AclUser(app) := v], map[], 0);
    var steps := ProvisionSteps(Redis, app, password, opts);
    var a := Send(w, steps[0].cmd, fates);
    assert a.ok && a.w.tick == 1;
    RunOne(a.w, steps[1..], fates);
    assert Run(w, steps, fates) == Send(a.w, AclSave, fates);
    assert Provision(w, Redis, app, password, opts, fates).config.Some?;
    PlainProvisionConfinesIff(w, app, password, opts, fates);
    assert Tokens("*") == [Star] + Tokens("*"[1..]) == [Star];
    StarMatchesAll("");
    assert KeyPattern(app, true)[1..] == "*";
    assert Reaches(v, "");
    assert !(Namespace(app) <= "");
  }
}
