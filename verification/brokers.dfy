// The shared brokers as one abstract state, and the admin commands the
// program sends to them. A command can be refused by the broker (the state
// decides) or go wrong on the way (the environment decides).
module Brokers {
  import opened Text
  import opened Names

  // Everything a broker stores, by name.
  datatype Res =
    | PgDatabase(name: string)
    | PgSession(database: string)
    | PgRole(name: string)
    | AclUser(name: string)
    | RedisKey(key: string)
    | Vhost(name: string)
    | RabbitUser(name: string)
    | Permission(vhost: string, user: string)
    | Bucket(name: string)
    | MinioUser(name: string)
    | Policy(name: string)
    | MongoDb(name: string)
    | MongoUser(db: string, user: string)

  // Accepted passwords, rights (grantees, key patterns, tags, policies or
  // roles, by kind of resource) and stored data.
  datatype Resource = Resource(secrets: set<string>, grants: set<string>, data: string)

  const EMPTY := Resource({}, {}, "")

  // `savedAcl` is Redis' ACL file; `tick` counts the commands sent so far.
  datatype World = World(res: map<Res, Resource>, savedAcl: map<string, Resource>, tick: nat)

  datatype Cmd =
    | CreateDatabase(db: string)
    | CreateRole(role: string, password: string)
    | GrantDatabase(db: string, role: string)
    | GrantSchema(db: string, role: string)
    | TerminateBackends(db: string)
    | DropDatabase(db: string)
    | DropRole(role: string)
    | AclSetUser(user: string, password: string, pattern: string)
    | AclSave
    | AclDelUser(user: string)
    | DeleteKeys(pattern: string)
    | ListVhosts
    | ListUsers
    | AddVhost(vhost: string)
    | AddUser(user: string, password: string)
    | ChangePassword(user: string, password: string)
    | SetPermissions(vhost: string, user: string)
    | SetUserTags(user: string)
    | DeleteUser(user: string)
    | DeleteVhost(vhost: string)
    | MakeBucket(bucket: string)
    | AddMinioUser(user: string, password: string)
    | CreatePolicy(policy: string, bucket: string)
    | AttachPolicy(policy: string, user: string)
    | RemoveBucket(bucket: string)
    | DetachPolicy(policy: string, user: string)
    | RemovePolicy(policy: string)
    | RemoveMinioUser(user: string)
    | CreateMongoUser(db: string, user: string, password: string)
    | UpsertMongoUser(db: string, user: string, password: string)
    | DropMongo(db: string)

  const ALL_RIGHTS: set<string> := {"configure .*", "write .*", "read .*"}

  function MongoRoles(db: string): set<string> { {"readWrite@" + db, "dbAdmin@" + db} }

  function At(w: World, r: Res): Option<Resource>
  {
    if r in w.res then Some(w.res[r]) else None
  }

  function Put(w: World, r: Res, v: Resource): World
  {
    w.(res := w.res[r := v])
  }

  function Drop(w: World, rs: set<Res>): World
  {
    w.(res := w.res - rs)
  }

  function PermissionsOfUser(w: World, user: string): set<Res>
  {
    set r | r in w.res && r.Permission? && r.user == user
  }

  function PermissionsOfVhost(w: World, vhost: string): set<Res>
  {
    set r | r in w.res && r.Permission? && r.vhost == vhost
  }

  function MatchingKeys(w: World, pattern: string): set<Res>
  {
    set r | r in w.res && r.RedisKey? && Glob(pattern, r.key)
  }

  function CurrentAcl(w: World): map<string, Resource>
  {
    map n | n in (set r | r in w.res && r.AclUser? :: r.name) :: w.res[AclUser(n)]
  }

  // The grant on the schemas inside a database, next to the one on itself.
  function SchemaGrant(role: string): string { "schemas of " + role }

  // A policy that an account still has.
  predicate InUse(w: World, policy: string)
  {
    exists r :: r in w.res && r.MinioUser? && policy in w.res[r].grants
  }

  // The reply of a broker that received the command: the new state, or None
  // when the broker refuses it.
  function Exec(w: World, c: Cmd): Option<World>
  {
    match c
    case CreateDatabase(db) =>
      if PgDatabase(db) in w.res then None else Some(Put(w, PgDatabase(db), EMPTY))
    case CreateRole(role, password) =>
      if PgRole(role) in w.res then None else Some(Put(w, PgRole(role), EMPTY.(secrets := {password})))
    case GrantDatabase(db, role) =>
      if PgDatabase(db) !in w.res || PgRole(role) !in w.res then None
      else Some(Put(w, PgDatabase(db), w.res[PgDatabase(db)].(grants := w.res[PgDatabase(db)].grants + {role})))
    case GrantSchema(db, role) =>
      if PgDatabase(db) !in w.res || PgRole(role) !in w.res then None
      else
        var v := w.res[PgDatabase(db)];
        Some(Put(w, PgDatabase(db), v.(grants := v.grants + {SchemaGrant(role)})))
    case TerminateBackends(db) => Some(Drop(w, {PgSession(db)}))
    // PostgreSQL does not drop a database that clients are connected to
    case DropDatabase(db) => if PgSession(db) in w.res then None else Some(Drop(w, {PgDatabase(db)}))
    case DropRole(role) => Some(Drop(w, {PgRole(role)}))
    // SETUSER adds to what an existing ACL user already has
    case AclSetUser(user, password, pattern) =>
      var v := if AclUser(user) in w.res then w.res[AclUser(user)] else EMPTY;
      Some(Put(w, AclUser(user), v.(secrets := v.secrets + {password}, grants := v.grants + {pattern})))
    case AclSave => Some(w.(savedAcl := CurrentAcl(w)))
    case AclDelUser(user) => Some(Drop(w, {AclUser(user)}))
    case DeleteKeys(pattern) => Some(Drop(w, MatchingKeys(w, pattern)))
    case ListVhosts => Some(w)
    case ListUsers => Some(w)
    case AddVhost(vhost) =>
      if Vhost(vhost) in w.res then Some(w) else Some(Put(w, Vhost(vhost), EMPTY))
    case AddUser(user, password) =>
      if RabbitUser(user) in w.res then None else Some(Put(w, RabbitUser(user), EMPTY.(secrets := {password})))
    case ChangePassword(user, password) =>
      if RabbitUser(user) !in w.res then None
      else Some(Put(w, RabbitUser(user), w.res[RabbitUser(user)].(secrets := {password})))
    case SetPermissions(vhost, user) =>
      if Vhost(vhost) !in w.res || RabbitUser(user) !in w.res then None
      else Some(Put(w, Permission(vhost, user), EMPTY.(grants := ALL_RIGHTS)))
    case SetUserTags(user) =>
      if RabbitUser(user) !in w.res then None
      else Some(Put(w, RabbitUser(user), w.res[RabbitUser(user)].(grants := {"management"})))
    case DeleteUser(user) =>
      if RabbitUser(user) !in w.res then None
      else Some(Drop(w, PermissionsOfUser(w, user) + {RabbitUser(user)}))
    case DeleteVhost(vhost) =>
      if Vhost(vhost) !in w.res then None
      else Some(Drop(w, PermissionsOfVhost(w, vhost) + {Vhost(vhost)}))
    case MakeBucket(bucket) =>
      if Bucket(bucket) in w.res then Some(w) else Some(Put(w, Bucket(bucket), EMPTY))
    case AddMinioUser(user, password) =>
      var v := if MinioUser(user) in w.res then w.res[MinioUser(user)] else EMPTY;
      Some(Put(w, MinioUser(user), v.(secrets := {password})))
    case CreatePolicy(policy, bucket) => Some(Put(w, Policy(policy), EMPTY.(grants := {bucket})))
    case AttachPolicy(policy, user) =>
      if Policy(policy) !in w.res || MinioUser(user) !in w.res then None
      else Some(Put(w, MinioUser(user), w.res[MinioUser(user)].(grants := w.res[MinioUser(user)].grants + {policy})))
    case RemoveBucket(bucket) =>
      if Bucket(bucket) !in w.res then None else Some(Drop(w, {Bucket(bucket)}))
    case DetachPolicy(policy, user) =>
      if MinioUser(user) !in w.res then None
      else Some(Put(w, MinioUser(user), w.res[MinioUser(user)].(grants := w.res[MinioUser(user)].grants - {policy})))
    // nor MinIO a policy that an account still has
    case RemovePolicy(policy) =>
      if Policy(policy) !in w.res || InUse(w, policy) then None else Some(Drop(w, {Policy(policy)}))
    case RemoveMinioUser(user) =>
      if MinioUser(user) !in w.res then None else Some(Drop(w, {MinioUser(user)}))
    case CreateMongoUser(db, user, password) =>
      if MongoUser(db, user) in w.res then None
      else Some(Put(w, MongoUser(db, user), Resource({password}, MongoRoles(db), "")))
    case UpsertMongoUser(db, user, password) =>
      Some(Put(w, MongoUser(db, user), Resource({password}, MongoRoles(db), "")))
    case DropMongo(db) => Some(Drop(w, {MongoUser(db, db), MongoDb(db)}))
  }

  // ------------------------------------------------------------------- faults

  // What becomes of a command: it is answered, it never reaches the broker, it
  // takes effect and the answer is lost, or the broker answers with an error of
  // its own (not authenticated, out of memory, read-only, ACL file not
  // writable).
  datatype Fate = Answered | Unreached | Lost | Rejected

  type Fates = nat -> Fate

  // One command of a sequence; the outcome of a best-effort one is ignored.
  datatype Step = Step(cmd: Cmd, bestEffort: bool)

  datatype Reply = Reply(w: World, ok: bool)

  // What the Redis package sends.
  predicate ByRedisCli(c: Cmd)
  {
    c.AclSetUser? || c.AclSave? || c.AclDelUser? || c.DeleteKeys?
  }

  // docker exec fails when the client in the container exits with an error.
  // redis-cli, called without -e, does not do so for an error reply.
  predicate LooksDone(c: Cmd, f: Fate)
  {
    f.Answered? || (ByRedisCli(c) && f.Rejected?)
  }

  predicate TakesEffect(f: Fate) { f.Answered? || f.Lost? }

  function Send(w: World, c: Cmd, fates: Fates): Reply
  {
    var done := Exec(w, c);
    var after := if done.Some? && TakesEffect(fates(w.tick)) then done.value else w;
    Reply(after.(tick := w.tick + 1), done.Some? && LooksDone(c, fates(w.tick)))
  }

  // A sequence of commands; the first failure that is not ignored ends it.
  function Run(w: World, steps: seq<Step>, fates: Fates): Reply
    decreases |steps|
  {
    if steps == [] then Reply(w, true)
    else
      var r := Send(w, steps[0].cmd, fates);
      if !r.ok && !steps[0].bestEffort then r else Run(r.w, steps[1..], fates)
  }

  predicate FaultFree(fates: Fates, from: nat, to: nat)
  {
    forall t :: from <= t < to ==> fates(t) == Answered
  }

  function Must(c: Cmd): Step { Step(c, false) }

  function Try(c: Cmd): Step { Step(c, true) }

  // The admin side of the containers: the state, changed by one command at a
  // time.
  class Server {
    var w: World
    const fates: Fates

    constructor (w0: World, fates0: Fates)
      ensures w == w0 && fates == fates0
    {
      w := w0;
      fates := fates0;
    }

    // docker exec of one admin command.
    method Do(c: Cmd) returns (ok: bool)
      modifies this
      ensures Reply(w, ok) == Send(old(w), c, fates)
    {
      var done := Exec(w, c);
      ok := done.Some? && LooksDone(c, fates(w.tick));
      w := (if done.Some? && TakesEffect(fates(w.tick)) then done.value else w).(tick := w.tick + 1);
    }

    // The `for _, args := range steps` loops of the service packages.
    method DoAll(steps: seq<Step>) returns (ok: bool)
      modifies this
      ensures Reply(w, ok) == Run(old(w), steps, fates)
    {
      var i := 0;
      ok := true;
      while i < |steps|
        invariant 0 <= i <= |steps|
        invariant Run(w, steps[i..], fates) == Run(old(w), steps, fates)
        invariant ok
      {
        ok := Do(steps[i].cmd);
        assert steps[i..][1..] == steps[i + 1..];
        if !ok && !steps[i].bestEffort {
          return;
        }
        ok := true;
        i := i + 1;
      }
    }
  }
}
