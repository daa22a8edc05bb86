# infra-shelf: a verified model

infra-shelf provisions per-app credentials on shared brokers (PostgreSQL, Redis,
RabbitMQ, AIStor, MongoDB, and SignOz as an addon), keeps them in a registry
file, and backs up, prunes, mirrors and restores the apps' data. This project
models its five linked state machines in Dafny and proves what they promise one
another. `dafny verify dfyconfig.toml` checks everything.

| part | files |
|---|---|
| text, names, registry data, sorting | `text.dfy`, `names.dfy`, `registry.dfy`, `sorting.dfy` |
| brokers as abstract state, with a fate for every command; provisioning and teardown | `brokers.dfy`, `services.dfy`, `rabbitmq.dfy` |
| engine: Reconcile, SetupApp, AddServices, DetachServices, RemoveApp, and whole runs of them | `reconcile.dfy`, `recovery.dfy`, `engine.dfy`, `engine_invariant.dfy`, `removal.dfy`, `repeats.dfy`, `rejections.dfy`, `runs.dfy`, `coverage.dfy`, `confinement.dfy`, `leftovers.dfy`, `signoz.dfy`, `engine_laws.dfy`, `shelf_engine.dfy` |
| Redis snapshot and replay | `redis.dfy` |
| backup, retention, S3 mirror, restore plan | `backup_names.dfy`, `retention.dfy`, `backup.dfy`, `backup_laws.dfy`, `sort_outcomes.dfy`, `mirror.dfy`, `dumps.dfy`, `pipeline.dfy`, `backup_engine.dfy`, `backup_service.dfy`, `pipeline_laws.dfy`, `mirror_laws.dfy`, `survival.dfy`, `backup_history.dfy` |
| scheduler and run history | `schedule_store.dfy`, `schedule_laws.dfy`, `run_history.dfy`, `schedule_manager.dfy` |
| registry file and `.env` text, sizes | `dotenv.dfy`, `env_file.dfy`, `env_laws.dfy`, `registry_store.dfy`, `format_bytes.dfy` |

Code that changes state step by step is a class or a method with loops
(`Engine`, `Server`, `Redis`, `Disk`, `BackupEngine`, `BackupService`, `Store`,
`Manager`, `WebServer`, `FileSystem`, `RegistryFile`), each proved against a
function or predicate on values; the lemmas are about those. `engine_laws.dfy`,
`backup_laws.dfy`, `schedule_laws.dfy` and `env_laws.dfy` say in the caller's
terms what these functions come to: which calls are accepted, and what each
operation writes, field by field. What the program does not decide is a
parameter: the fate of each broker command (answered, not delivered, applied
with the answer lost, or rejected by the broker), generated passwords, clocks,
whether a save, dump, upload or delete works, which containers run, the order in
which Go walks a map, and how an unstable sort breaks ties.

## What the proofs found

Where a promise fails, a lemma names the input and another gives the exact
condition.

- Reconcile converges if and only if the registry does not ask for two
  passwords of one account (`ReconcileConvergesIff`); every registry the engine
  can reach satisfies this, also after failures and lost volumes
  (`RunsKeepNaming`). One app's faults do not stop the others
  (`ReconcileIsFailSoft`). What can block Ensure of an app without any fault is
  a foreign vhost or user whose listed name only trims to the app's name, and
  nothing else (`ReconcileRecoversIff`, `LookalikeBlocksEnsure`).
- `redis-cli`, called without its error-exit flag, exits with success on an
  error reply. When Redis asks for a password the program has not found, or
  cannot write its ACL file, SetupApp and AddServices store a credential that
  the broker never got (`UnauthenticatedSetup`); Redis accepts what Provision
  returns if and only if neither command was rejected (`RedisIsAcceptedIff`,
  `SetupHoldsIff`, `AddHoldsIff`).
- A faultless RemoveApp leaves nothing of the app behind, and a fault in one
  service does not keep the others from being cleared (`RemoveIsFailSoft`,
  `RemoveLeavesNothing`). The one exception is the app's S3 policy while another
  account has it too: `mc` then refuses to remove it, and the program passes
  over that.
- Besides the rejected commands and a lost volume, a credential of the registry can stop working
  in two ways. One is a failed save at the end of RemoveApp, for every app with
  more than SignOz (`RemoveKeepsInvIff`, `FailedRemoveSaveBreaksCredential`).
  The other is a request that lists AIStor twice, or an environment twice along
  with AIStor: the second `mc admin user add` changes the secret, and when a
  command or the save after it fails, the registry keeps the first one
  (`SetupIsSafeIff`, `AddIsSafeIff`, `RepeatedServiceBreaksCredential`). The
  CLI and the web server drop repetitions first
  (`internal/cli/commands/common.go:37-49`,
  `internal/web/server/server.go:208,336`) and ParseEnvs refuses a repeated
  environment, so only a direct caller of the engine can send such a request.
  Every other service may repeat. Without all of these the invariant holds over
  every run (`RunsKeepInv`).
- `ACL SETUSER` adds patterns and never clears them, so an ACL user left behind
  by a failed teardown keeps its reach (`PlainProvisionConfinesIff`). A
  full-access setup, a removal whose `DELUSER` does not reach Redis and a plain
  setup of the same name end with an app that reads and writes every key
  (`LeftoverRunIsNotConfined`). Which fates of the Redis commands and saves
  keep every plain app confined is exact (`EventStaysTidyIff`,
  `RunsStayTidyIff`, `RunsStayConfined`).
- A Redis backup silently drops keys of any other type than the five the script
  reads (`RestoreInvertsBackupIff`), and a rejected script leaves the text of
  the error as a backup that counts as produced and restores nothing
  (`WrittenRestoresIff`). A restore over a key of another type leaves that key
  as it is and still reports success (`RestoreMerges`).
- Retention orders by modification time. A file just written is sure to survive
  if and only if it is not older than the cutoff and fewer than KeepCount
  earlier files of its group have the same time or a later one
  (`ProducedSurvivesIff`, `ScheduledRunKeepsIff`); with KeepCount 1, a single
  earlier file of the same time can cost it. The losing outcome is one the
  unstable sort can produce (`SortMayDeleteIff`).
- A failed dump removes whatever is at its path. When that was a good backup of
  the same second, S3 keeps an object that local no longer has; when the
  removal itself fails, local keeps a partial file that S3 does not have
  (`SuccessKeepsSyncIff`, `RunKeepsCoveredIff`).
- When a new schedule is stored but cannot be read back, the handler returns
  before Reload, and an enabled schedule has no entry until the next one
  (`Manager.Change`, `EditsMatchIff`).
- `docs/ARCHITECTURE.md:132-135` says that reconcile re-applies every vhost,
  user, database and permission of the registry. The code covers RabbitMQ and
  MongoDB only: after a faultless pass the whole registry is in force if and
  only if no lookalike is listed and every other credential was in force before
  (`ReconcileCoversIff`), and a lost PostgreSQL, Redis or AIStor volume stays
  lost (`LostVolumeStaysLost`).

## Model

| member | source | states |
|---|---|---|
| Names.ValidNamesAreClean | internal/registry/registry.go:21-21 | a valid app name holds no separator, whitespace, quote or glob character that the rest of the program gives a meaning |
| Names.PatternIsPrefix | internal/services/redis/redis.go:35-50 | under Redis' glob language the pattern `<app>:*` selects exactly the keys that start with `<app>:` |
| Names.NamespacesAreDisjoint | internal/services/redis/redis.go:35-50 | no key lies in the namespaces of two apps |
| Names.ParseEnvs | internal/envspec/envspec.go:18-43 | the trimmed, non-empty names in order, or an error exactly when one is invalid, one repeats or none is left |
| Names.BuildSetupTargets | internal/envspec/envspec.go:73-90 | one target per environment, in order, or the app itself; what the targets amount to in the registry is stated by `PlainSetupWrites` and `SiblingSetupWrites` |
| Names.SetupTargetsAreSound | internal/envspec/envspec.go:73-90 | expanded `<app>-<env>` targets are valid app names and pairwise distinct |
| Registry.ParseServices | internal/registry/registry.go:354-373 | blanks skipped, repetitions dropped, first occurrences in order; an error exactly when a name is not in the catalog |
| Registry.ParsedListIsCanonical | internal/registry/registry.go:354-373 | the returned list is duplicate-free, valid and a fixed point of parsing |
| ServiceOps.ProvisionService | internal/shelfcore/services.go:142-158 | sends the service's commands in order and stops at the first that fails; the stored configuration is returned only when every command looked done: a rejected Redis command does |
| ServiceOps.TeardownService | internal/shelfcore/services.go:64-80 | the same for teardown, whose tolerated failures do not stop it; what is left after it is stated by `TeardownClears` |
| ServiceOps.RunIsFramed | internal/services/rabbitmq/rabbitmq.go:22-45 | however a command run fails, it changes nothing of another app or of another service of the same app |
| ServiceOps.ProvisionIsAccepted | internal/services/postgres/postgres.go:24-50 | what a Provision that reports success returns is accepted by the broker and names only its own app, for all six services; for Redis, if neither command was rejected |
| ServiceOps.RedisIsAcceptedIff | internal/services/redis/redis.go:29-57 | what Redis' Provision returns is accepted if and only if each command was answered or had nothing to add; with a new password, if and only if neither was rejected |
| ServiceOps.FramedKeepsCredential | internal/services/redis/redis.go:29-57 | a framed change leaves every credential of other apps and other services accepted |
| ServiceOps.ReprovisionKeepsCredential | internal/services/redis/redis.go:29-57 | a Provision over an attached service, however it fails, leaves the registered credential accepted, for every service but AIStor |
| ServiceOps.PlainProvisionConfinesIff | internal/services/redis/redis.go:29-57 | after a plain Provision that reports success the ACL user is there and reaches only its own namespace if and only if no ACL user of that name with wider reach was there before and, if there was none, SETUSER was not rejected |
| ServiceOps.LeftoverFullAccessIsNotConfined | internal/services/redis/redis.go:36-50 | a concrete state in which a plain Provision leaves an app with access to every key |
| RabbitOps.ContainsLine | internal/services/rabbitmq/rabbitmq.go:171-178 | found exactly when a line, trimmed, is the target |
| RabbitOps.ContainsUser | internal/services/rabbitmq/rabbitmq.go:181-189 | found exactly when the first tab-separated field of a line, trimmed, is the target |
| RabbitOps.ExistingIsListed | internal/services/rabbitmq/rabbitmq.go:129-189 | a vhost or user with a valid name that exists is found in every listing text the broker can print |
| RabbitOps.Ensure | internal/services/rabbitmq/rabbitmq.go:129-169 | issues the listing-dependent command sequence, stopping at the first failure, and reports success exactly when that run succeeds |
| Reconciling.EnsureSucceeds | internal/services/rabbitmq/rabbitmq.go:129-169 | a successful Ensure leaves the whole configuration in force from any broker state: wiped, drifted or half-way |
| Reconciling.EnsureRabbitSucceedsIff | internal/services/rabbitmq/rabbitmq.go:129-189 | without faults Ensure succeeds if and only if the configuration is complete and the listings tell the truth about its vhost and user |
| Reconciling.EnsureIsGentle | internal/services/mongodb/mongodb.go:217-230 | Ensure of RabbitMQ or MongoDB, however it fails, touches only its own subjects and breaks no credential that agrees with it |
| Reconciling.ReconcileIsHarmless | internal/shelfcore/reconcile.go:32-74 | whatever fails, the pass changes no user, vhost or permission outside the registry and breaks no unopposed registered credential |
| Reconciling.SecondRunChangesNothing | internal/shelfcore/reconcile.go:32-74 | over a registry in force a pass changes no resource |
| Reconciling.EnsuredStaysEnsured | internal/shelfcore/reconcile.go:41-72 | one report per app, in order; a service reported ensured is in force when the whole pass is over, whatever failed before or after |
| Reconciling.ReconcileConvergesIff | internal/shelfcore/reconcile.go:32-74 | after a pass without failures all registered credentials are valid at once if and only if the registry does not contradict itself |
| Reconciling.SelfNamingIsUnanimous | internal/shelfcore/reconcile.go:12-31 | a registry whose entries name only their own apps does not contradict itself |
| Recovery.ReconcileIsFailSoft | internal/shelfcore/reconcile.go:41-72 | fail-soft: an app whose own commands meet no fault is reported without failures and has its credentials in force at the end of the pass, whatever the other apps meet, exactly unless the first listings already show a lookalike of it |
| Recovery.ReconcileRecoversIff | internal/shelfcore/reconcile.go:32-74 | a pass without faults over such a registry has no failures, and leaves every RabbitMQ and MongoDB credential in force, if and only if the broker lists no lookalike of an app with RabbitMQ |
| Recovery.LookalikeBlocksEnsure | internal/services/rabbitmq/rabbitmq.go:171-189 | a foreign vhost named like the app plus a space makes a faultless Ensure fail |
| EngineSpec.RejectedSetupChangesNothing | internal/shelfcore/setup.go:34-63 | bad arguments, a name clash or a stopped container: an error, and registry and brokers as they were |
| EngineSpec.RejectedAddChangesNothing | internal/shelfcore/add.go:18-46 | the same for AddServices and a target that does not exist |
| EngineSpec.RejectedDetachChangesNothing | internal/shelfcore/detach.go:14-54 | the same for DetachServices: a missing app, or a service that is not SignOz |
| EngineSpec.RejectedRemoveChangesNothing | internal/shelfcore/remove.go:18-49 | the same for RemoveApp and a missing app |
| EngineSpec.SetupSplitsRequest | internal/shelfcore/setup.go:65-105 | Provisioned and Failures split the request and the new entry holds exactly Provisioned |
| EngineSpec.AddSplitsRequest | internal/shelfcore/add.go:48-91 | attached services are dropped from the request, the rest is split, old configurations are kept and exactly Provisioned is gained |
| EngineSpec.SetupSavesPrefix | internal/shelfcore/setup.go:65-107 | after k successful saves the registry on disk is the old one with the first k targets written |
| EngineSpec.AddSavesPrefix | internal/shelfcore/add.go:48-93 | the same for AddServices |
| EngineLaws.SetupAcceptedIff | internal/shelfcore/setup.go:34-63 | SetupApp goes ahead if and only if the app name is valid, every service is known and its container runs, and the names to write, `<app>` or each `<app>-<env>`, are valid and new |
| EngineLaws.PlainSetupWrites | internal/shelfcore/setup.go:65-107 | without environments, when the save works: one new entry `<app>` tagged with the flag's environment; PostgreSQL, RabbitMQ, AIStor and MongoDB configurations named after the app, the Redis prefix `<app>:` or, with full access, none, SignOz with the app as service and the flag's environment, else the default, else dev; every requested service reported as provisioned and stored or as failed |
| EngineLaws.SiblingSetupWrites | internal/envspec/envspec.go:73-84 | with environments, for each of them: the entry `<app>-<env>` is tagged with that environment and the app as SignOz service name, its configurations are named after `<app>-<env>`, SignOz carries that environment, and its result reports every requested service |
| EngineLaws.SetupSparesEntries | internal/shelfcore/setup.go:46-63 | no entry that was there before changes, whatever fails |
| EngineLaws.AddAcceptedIff | internal/shelfcore/add.go:18-46 | AddServices goes ahead if and only if the app name is valid, every service is ready and every target exists |
| EngineLaws.PlainAddWrites | internal/envspec/envspec.go:108-123 | an add without environments keeps every configuration, gives SignOz the flag's environment or else the one the entry remembers, and the service name it remembers or else the app; new Redis access is confined; every service the entry lacked is reported |
| EngineLaws.SiblingAddWrites | internal/shelfcore/add.go:48-93 | with environments the same for each `<app>-<env>`, with that environment and the app as service name |
| EngineLaws.AddSparesEntries | internal/shelfcore/add.go:48-93 | no other entry changes, whatever fails |
| EngineLaws.DetachAcceptedIff | internal/shelfcore/detach.go:14-54 | DetachServices goes ahead if and only if the app exists and the request is SignOz and nothing else |
| EngineLaws.DetachTakesSignoz | internal/shelfcore/detach.go:40-54 | it takes the SignOz configuration and keeps everything else of the entry, its tags included, and every other entry |
| EngineLaws.RemoveTakesEntry | internal/shelfcore/remove.go:32-48 | RemoveApp takes exactly the entry of the app, if the save works |
| EngineLaws.ReconcileReports | internal/shelfcore/reconcile.go:41-72 | one report per app; it lists each of RabbitMQ and MongoDB that the app has exactly once, as ensured or as failed, and nothing else |
| EngineInvariant.LoopKeeps | internal/shelfcore/setup.go:78-95 | provisioning one target, whatever fails, keeps its entry accepted and self-naming and leaves other apps alone, when AIStor is not listed twice and no rejected Redis command passes for a success; every other service may repeat |
| EngineInvariant.SetupKeepsInv | internal/shelfcore/setup.go:34-108 | SetupApp keeps: every registry credential is accepted by its broker and names only its own app; the request may repeat anything but AIStor, and environments when AIStor is not among the services; what a saved target was told of Redis is true |
| EngineInvariant.AddKeepsInv | internal/shelfcore/add.go:19-94 | AddServices keeps the same invariant, if AIStor is listed at most once or every target has it already, and what saved targets were told of Redis is true |
| EngineInvariant.DetachKeepsInv | internal/shelfcore/detach.go:14-54 | DetachServices keeps it |
| Removal.RemoveKeepsInvIff | internal/shelfcore/remove.go:18-49 | with faultless commands RemoveApp keeps it if and only if its save works or the app has nothing but SignOz |
| Removal.TeardownClears | internal/services/postgres/postgres.go:94-98 | a faultless teardown of a service whose credential is in force leaves no database, session or role; no ACL user in memory or file and no key of the namespace; no vhost, user or permission; no bucket, account or policy, unless another account has the policy; no MongoDB user or database |
| Removal.RemoveIsFailSoft | internal/shelfcore/remove.go:32-46 | the same for each attached service whose own commands meet no fault, whatever the commands of the other services meet and whether or not the save works |
| Removal.RemoveLeavesNothing | internal/shelfcore/remove.go:18-49 | without faults nothing of the app is left in any attached service, and if the save works the registry loses exactly its entry |
| EngineInvariant.RemoveKeepsInv | internal/shelfcore/remove.go:18-49 | whatever the commands meet, it keeps it when the save works or the app has nothing but SignOz |
| Repeats.SetupIsSafeIff | internal/shelfcore/setup.go:65-105 | an accepted SetupApp keeps the invariant under every fate of commands, passwords and saves in which no rejected Redis command passes for a success, if and only if the request lists AIStor at most once and does not list an environment twice along with it |
| Repeats.AddIsSafeIff | internal/shelfcore/add.go:48-91 | the same for AddServices, unless every target has AIStor already |
| Rejections.LoopHoldsIff | internal/shelfcore/setup.go:78-95 | one target, asked for Redis at most once and given new passwords: its entry is in force if and only if what Redis reported is true; otherwise the registered Redis credential is refused |
| Rejections.SetupHoldsIff | internal/shelfcore/setup.go:65-107 | SetupApp of one target keeps the invariant if and only if the target is not saved or what Redis reported is true |
| Rejections.AddHoldsIff | internal/shelfcore/add.go:48-93 | the same for AddServices of one app |
| Rejections.UnauthenticatedSetup | internal/services/redis/redis.go:216-239 | Redis asks for a password the program has not found: SetupApp reports Redis as provisioned, the brokers are as before, and the stored credential is refused |
| Runs.RunsKeepInv | internal/shelfcore/setup.go:34-107 | the invariant holds in every state reached by setup, add, detach, remove, reconcile, client writes and Redis restarts, as long as no request provisions AIStor twice for one target, no rejected Redis Provision of a saved target passes for a success, no app with something to tear down loses the save of its removal, and no volume is lost |
| Runs.RunsKeepNaming | internal/shelfcore/reconcile.go:16-31 | the naming half of the invariant survives every event: repeated services, failed saves and lost volumes included |
| Runs.ReconcileAfterAnything | internal/shelfcore/reconcile.go:32-74 | after any events, lost volumes included, a faultless Reconcile puts every registered RabbitMQ and MongoDB credential in force if and only if the broker lists no lookalike; a further one then changes nothing |
| Runs.ReconcileIsFailSoftAfterAnything | internal/shelfcore/reconcile.go:41-72 | the same app by app: faults of other apps' commands do not keep an app from being recovered |
| Coverage.ReconcileCoversIff | docs/ARCHITECTURE.md:132-135 | a faultless Reconcile puts the whole registry in force if and only if the broker lists no lookalike and every credential of a service other than RabbitMQ and MongoDB was in force before |
| Coverage.ReconcileCoversAfterAnything | docs/ARCHITECTURE.md:132-135 | the same after any events: the invariant is restored exactly then |
| Coverage.LostVolumeStaysLost | internal/shelfcore/reconcile.go:33-72 | once the volume of PostgreSQL, Redis or AIStor is lost, no Reconcile brings a credential of it back |
| Runs.EventLeavesOthersAlone | internal/shelfcore/remove.go:18-49 | a step on one app preserves entry, credentials, ACL file entry and data of every other app, provided a Redis client that writes is confined by the broker's ACL |
| Runs.FailedRemoveSaveBreaksCredential | internal/shelfcore/remove.go:32-48 | a failed save in RemoveApp leaves the registry with a credential the broker no longer accepts |
| Runs.RepeatedServiceBreaksCredential | internal/shelfcore/setup.go:78-95 | from any state that satisfies the invariant, some fates make SetupApp with AIStor listed twice leave registry and broker with different secrets |
| Confinement.EventStaysTidyIff | internal/services/redis/redis.go:35-50 | only apps registered with full access have ACL users that reach further: an event keeps this if and only if, by the fates of its Redis commands and saves, every target whose full-access SETUSER takes effect is saved with a reported Redis, and the teardown of a removed full-access app has DELUSER answered, the file saved after it, and no failure reported before it |
| Confinement.RunsStayTidyIff | internal/services/redis/redis.go:22-56 | an orderly run passes only through such states if and only if each of its events ends so |
| Confinement.RunsStayConfined | internal/services/redis/redis.go:22-56 | over whole runs whose events end so, every plain app reaches only its own keys and the invariant holds |
| Confinement.RunsLeaveOthersAlone | internal/shelfcore/remove.go:18-49 | over the same runs, an app no event is about keeps entry, credentials and data, if no full-access app writes to Redis |
| Leftovers.LeftoverRunIsNotConfined | internal/services/redis/redis.go:36-50 | a full-access setup, a removal whose DELUSER does not reach Redis and a plain setup, from empty brokers, without a failed save or a rejected command, end with the app reaching every key |
| ShelfEngine.Engine.SetupApp | internal/shelfcore/setup.go:34-108 | the class refines the specification: same registry, brokers, results and error; the `EngineLaws` rows say what that comes to for the caller |
| ShelfEngine.Engine.AddServices | internal/shelfcore/add.go:19-94 | refines the specification of AddServices |
| ShelfEngine.Engine.BuildAddTargets | internal/envspec/envspec.go:95-123 | without environments the SignOz names remembered at setup are used |
| ShelfEngine.Engine.DetachServices | internal/shelfcore/detach.go:14-54 | refines the specification of DetachServices |
| ShelfEngine.Engine.RemoveApp | internal/shelfcore/remove.go:18-49 | refines the specification of RemoveApp; `RemoveIsFailSoft` and `RemoveLeavesNothing` say what is gone afterwards |
| ShelfEngine.Engine.ContainerCheck | internal/shelfcore/services.go:49-62 | true exactly when every requested service is known and its container runs |
| ShelfEngine.Engine.Reconcile | internal/shelfcore/reconcile.go:32-74 | runs the pass over all apps in the one name order of the key set and refines its specification |
| SignozAddon.SetupStoresSignozOf | internal/services/signoz/signoz.go:17-31 | plain, `--env` and `--envs` setups store the SignOz configuration that the entry's own tags determine |
| SignozAddon.PlainAddMakesSignozOf | internal/envspec/envspec.go:108-123 | a plain re-attach makes the configuration the entry determines |
| SignozAddon.ReattachRestoresSignoz | internal/shelfcore/detach.go:40-54 | detaching SignOz and re-adding it without flags, after any events but the app's removal, restores the exact configuration |
| SignozAddon.TaggedAddIsNotRemembered | internal/envspec/envspec.go:108-123 | an `add --env` with another tag attaches a configuration that a later plain re-attach does not bring back |
| Sorting.SortStrings | internal/shelfcore/backup.go:189-195 | sorts the array in place and keeps its multiset |
| Sorting.SortedEnumerationIsUnique | internal/shelfcore/backup.go:104-110 | two sorted duplicate-free enumerations of one set are equal, so no map or input order shows in the output |
| RedisSnapshot.Redis.Backup | internal/services/redis/redis.go:59-75 | an answered EVAL leaves one [key, type, value] triple per key of the namespace, in any order; a rejected one, which redis-cli passes over, leaves the text of the error as a backup |
| RedisSnapshot.Redis.Restore | internal/services/redis/redis.go:113-135 | replays the document entry by entry, stopping at the first failed exit status; each command may be taken, not reach Redis, be taken with the answer lost, or be answered with an error, which redis-cli may or may not report |
| RedisSnapshot.Redis.ReplayEntry | internal/services/redis/redis.go:137-178 | one entry: builds the arguments and sends at most one command; says what the key holds and the exit status under each of these |
| RedisSnapshot.SwapKeepsPairing | internal/services/redis/redis.go:166-175 | the argument swap of the zset case keeps every member with its own score |
| RedisSnapshot.ReplaySpares | internal/services/redis/redis.go:113-178 | whatever goes wrong, keys without an entry are never touched |
| RedisSnapshot.ReplayEffect | internal/services/redis/redis.go:113-178 | after a replay that went through, every entry that landed had its full effect and the keys of the others their old values |
| RedisSnapshot.ReplaySucceedsIff | internal/services/redis/redis.go:113-178 | the replay reports success exactly when every command gets an answer and, where redis-cli reports error replies, none is an error |
| RedisSnapshot.RestoreMerges | internal/services/redis/redis.go:113-135 | over existing keys: strings are overwritten, hashes, sets and zsets merge with the snapshot winning, lists become existing followed by snapshot; a key of another type keeps its value; no other key is touched; such a clash fails the restore exactly where redis-cli reports error replies |
| RedisSnapshot.RestoreStaysInNamespace | internal/services/redis/redis.go:113-135 | with any faults and clashes, keys outside the namespace keep their values |
| RedisSnapshot.RestoreInvertsBackupIff | internal/services/redis/redis.go:59-197 | into an emptied namespace the restore rebuilds it exactly if and only if every key has one of the five types the script reads |
| RedisSnapshot.WrittenRestoresIff | internal/services/redis/redis.go:59-111 | what Backup wrote restores into an emptied namespace if and only if the EVAL was not rejected and every key has one of the five types; the text of an error reply fails to parse and changes nothing |
| RedisSnapshot.BackupTeardownRestore | internal/services/redis/redis.go:201-214 | backup, loss of the namespace and restore together change nothing |
| BackupNames.StampOrder | internal/shelfcore/backup.go:181-186 | lexicographic order on the fixed-width timestamps is chronological order |
| BackupNames.FileNameOrder | internal/shelfcore/backup.go:76-76 | the same on the file names of one service, for years 0 to 9999 |
| BackupNames.FileNameIsInjective | internal/shelfcore/backup.go:76-76 | backups of one service made at different instants have different names |
| BackupLaws.StampReadsBack | internal/shelfcore/backup.go:181-186 | year, month, day, hour, minute and second are read back from their places in the stamp |
| BackupNames.DetectorsAgreeWithWriter | internal/backup/backup.go:274-289 | a written file is detected as its writer's service, and no other service's prefix fits it |
| BackupNames.DetectByPrefix | internal/shelfcore/restore.go:145-152 | the service of the one prefix that fits, or nothing |
| BackupNames.FindLatestBackup | internal/shelfcore/restore.go:154-171 | the greatest name with the service's prefix, or nothing exactly when there is none |
| BackupNames.LatestIsNewest | internal/shelfcore/restore.go:154-171 | among program-made names the one chosen belongs to the latest instant |
| Retention.PruneIsIdempotent | internal/backup/backup.go:196-218 | a second application of the rule keeps what the first kept |
| Retention.PruneIsUniqueUpToTies | internal/backup/backup.go:196-218 | any two outcomes keep equally many files from every instant on, and without equal times the same files |
| Retention.SurvivesIff | internal/backup/backup.go:196-218 | a file survives every outcome exactly when it is not too old and fewer than KeepCount others are as new |
| SortOutcomes.OutcomeIffArrangement | internal/backup/backup.go:196-218 | the outcomes the rule allows are exactly what the loop keeps of the newest-first arrangements an unstable sort can produce |
| SortOutcomes.SortMayDeleteIff | internal/backup/backup.go:196-218 | some arrangement makes the loop delete a file if and only if the file is not safe |
| Backup.Filter | internal/backup/backup.go:124-136 | keeps exactly the fitting files, in order |
| Backup.FilterComposes | internal/backup/backup.go:124-136 | filtering by app and by service commutes and composes |
| Backup.Apps | internal/backup/backup.go:139-151 | the distinct app names, sorted |
| Backup.Services | internal/backup/backup.go:155-167 | the distinct service names, sorted |
| Backup.Disk.List | internal/backup/backup.go:35-83 | every recognised file once, newest first |
| Backup.GroupKeyIsInjective | internal/backup/backup.go:183-193 | the string keys of the group map keep apps and services apart |
| Backup.CutIsPruned | internal/backup/backup.go:196-218 | the loop condition cuts a suffix of the sorted group and what is left obeys the retention rule |
| Backup.Disk.Prune | internal/backup/backup.go:169-221 | in each selected group exactly min(KeepCount, files not older than the cutoff) stay and none is older than a deleted one; it fails only when the directory is unreadable, and then changes nothing, or when the removal of a selected file that is not safe is denied, and then only unsafe selected files are gone; the `BackupLaws` rows say which files are selected |
| Backup.PruneTouchesOnlySelected | internal/backup/backup.go:176-194 | files outside the selection or with an unrecognised name stay as they are; `PruneSparesOtherApps` and `PruneSparesOtherServices` say so of the options themselves |
| Backup.SecondPruneDeletesNothing | internal/backup/backup.go:169-221 | repeated at the same instant Prune deletes nothing |
| BackupLaws.PruneSparesOtherApps | internal/backup/backup.go:186-188 | a Prune for one app leaves every path of another app with its content, however it ends |
| BackupLaws.PruneSparesOtherServices | internal/backup/backup.go:189-193 | a Prune for some services leaves every path of another service, and every unrecognised name, with its content |
| BackupLaws.PruneOnlyRemoves | internal/backup/backup.go:196-218 | what is there after a Prune was there before, with the same content |
| BackupLaws.PruneKeepsTheRightOnes | internal/backup/backup.go:169-221 | of every app and service the options name, a Prune that went through keeps all backups not older than the cutoff, up to KeepCount, and none older than one it deletes |
| BackupLaws.FilterKeepsIff | internal/backup/backup.go:124-136 | a file is kept if and only if it is of the app and of the service that were named |
| Mirror.KeyIsInjective | internal/s3backup/s3backup.go:125-132 | different files have different object keys, for any prefix |
| BackupLaws.KeyUnderPrefix | internal/s3backup/s3backup.go:125-132 | under a prefix, with or without outer slashes, the key is `<prefix>/<app>/<file>`, and without one `<app>/<file>` (`KeyWithoutPrefix`) |
| Dumps.ChosenMembers | internal/shelfcore/backup.go:141-163 | the chosen services are exactly the attached, backupable, requested ones, each once |
| Dumps.ProducedIsThere | internal/shelfcore/backup.go:42-90 | a file reported as produced is there when the dumps are over, with the dumped content |
| Dumps.AllJobsAreGood | internal/shelfcore/backup.go:94-123 | over distinct app names no two dumps have the same app and service |
| BackupLaws.AppRunsIff | internal/shelfcore/backup.go:24-60 | an app is dumped if and only if its name is valid, it is registered, has a requested service other than SignOz, and its directory can be made |
| BackupLaws.AllJobsIff | internal/shelfcore/backup.go:94-123 | BackupAll dumps exactly the requested services of the apps that can be dumped |
| BackupLaws.RecordsNameFiles | internal/shelfcore/backup.go:76-86 | a record names the app, the service and the path of a file whose dump went through |
| BackupLaws.DumpsAreRecorded | internal/shelfcore/backup.go:76-86 | and every dump that went through has such a record |
| BackupLaws.DumpWrites | internal/shelfcore/backup.go:66-86 | at the path of a dump there is, when all are over, what was dumped, or what the cleanup of the failed dump left, or, when its container is down, what was there before |
| BackupLaws.DumpsSpareOtherPaths | internal/shelfcore/backup.go:66-86 | every other path keeps what it had |
| Dumps.PathBase | internal/web/backupservice/service.go:177-184 | what follows the last separator |
| Dumps.BaseIsUnique | internal/web/backupservice/service.go:177-184 | that base is unique |
| Dumps.PlanPicksLatest | internal/shelfcore/restore.go:33-63 | a chosen service is planned with its latest file and with no other |
| BackupEngineClass.BackupEngine.BackupApp | internal/shelfcore/backup.go:42-90 | refuses before anything is written; otherwise the files and the records are those of the app's dumps, failed ones removed |
| BackupEngineClass.BackupEngine.BackupAll | internal/shelfcore/backup.go:94-123 | all apps in name order, passing over those that fail |
| BackupEngineClass.BackupEngine.PlanRestore | internal/shelfcore/restore.go:33-63 | one entry per chosen service with a backup, in order, or an error for an unknown app or an empty plan |
| BackupLaws.PlanRestoresLatest | internal/shelfcore/restore.go:33-63 | a plan holds, for each attached and requested service other than SignOz with a backup in the directory of the app, exactly one entry, the greatest of the names there that start with `<service>_`, and nothing else |
| BackupServiceClass.BackupService.ConvertedPaths | internal/web/backupservice/service.go:164-175 | app and base name recovered from the records are the paths written |
| BackupServiceClass.BackupService.UploadMany | internal/s3backup/s3backup.go:98-108 | uploads a prefix, all of it exactly when it reports success; the request that failed may have taken effect |
| BackupServiceClass.BackupService.DeleteMany | internal/s3backup/s3backup.go:110-123 | deletes the objects of a prefix, all of it exactly when it reports success; the request that failed may have taken effect |
| BackupServiceClass.BackupService.ApplyRetention | internal/web/backupservice/service.go:138-159 | prunes, then withdraws the pruned files from S3; states both sides on each exit |
| BackupServiceClass.BackupService.BackupWithRetention | internal/web/backupservice/service.go:56-98 | files, objects and deleted list on every exit: refused backup, failed upload, failed prune, failed remote delete, success |
| BackupServiceClass.BackupService.UploadAll | internal/web/backupservice/service.go:102-111 | uploads a prefix of the recognised files; an error when S3 is off or the directory is unreadable |
| BackupServiceClass.BackupService.DeleteFile | internal/web/backupservice/service.go:114-125 | removes one recognised file and then its object; refused names and missing files change nothing; a failed delete of the object may have taken effect |
| PipelineLaws.RunAt | internal/web/backupservice/service.go:56-159 | both views of any path after a run, on every exit |
| PipelineLaws.RunSparesOtherApps | internal/web/backupservice/service.go:56-101 | a run for one app leaves the files and the objects of every other app alone, on every exit |
| PipelineLaws.SuccessKeepsTheRightOnes | internal/web/backupservice/service.go:56-98 | a run that went through leaves, of every app and service its options name, the newest backups and exactly as many as the limits say, also when there are none; with S3 off no object changes |
| MirrorLaws.SuccessKeepsSyncIff | internal/web/backupservice/service.go:56-98 | from S3 equal to local, a successful run ends with S3 equal to local if and only if each failed dump left at its path what was there before, or the run pruned it |
| MirrorLaws.CleanRunKeepsSyncIff | internal/web/backupservice/service.go:56-98 | when every failed dump was cleaned up: if and only if none had the name of an earlier file |
| MirrorLaws.UploadErrorAddsPrefix | internal/web/backupservice/service.go:76-90 | a failed upload prunes nothing and S3 gains exactly a prefix of the produced files: those the program saw uploaded, and perhaps the one that failed |
| MirrorLaws.RunKeepsCoveredIff | internal/web/backupservice/service.go:56-159 | on success, prune error and remote-delete error, S3 still contains every local file if and only if no failed dump left behind a file that is neither in S3 nor pruned |
| MirrorLaws.UploadErrorKeepsRest | internal/web/backupservice/service.go:76-90 | a failed upload leaves out of S3 only files the run produced and what failed dumps left behind |
| MirrorLaws.UploadAllCovers | internal/web/backupservice/service.go:102-111 | a successful UploadAll makes S3 contain every local backup from any state, and changes no other object |
| MirrorLaws.DeleteFileKeepsMirror | internal/web/backupservice/service.go:114-125 | DeleteFile keeps S3 equal to local, and only loses equality when the remote delete fails |
| MirrorLaws.CoveredSince | internal/web/backupservice/service.go:56-159 | over any history of runs, deletes and UploadAlls, S3 contains the local backups from then on until an upload stops half-way or the file of a failed dump stays |
| Survival.ScheduledJobsAreSelected | internal/web/scheduler/manager.go:171-183 | what the run of a schedule dumps is what its own retention looks at |
| Survival.ProducedSurvivesIff | internal/backup/backup.go:196-218 | a file a run produced survives every outcome of the run's own retention if and only if it is not older than the cutoff and fewer than KeepCount earlier files of its group are as new |
| Survival.ProducedSurvives | internal/backup/backup.go:196-218 | under that condition it is there after the run, with what was dumped, also when nothing was pruned |
| Survival.ScheduledRunKeepsIff | internal/web/scheduler/manager.go:171-183 | the same condition for the files of one schedule under its own retention |
| Survival.ScheduledRunSpares | internal/web/scheduler/manager.go:171-183 | the run of a schedule leaves every file of another app, when it is for one, and of another service, when it lists some, alone, on every exit |
| Survival.ScheduledRunKeepsTheRightOnes | internal/web/scheduler/manager.go:171-183 | when it goes through, it leaves of every app and service it is for the newest backups, as many as its days and count say |
| Survival.ScheduledRunIsRestorable | internal/web/scheduler/manager.go:171-183 | after a successful run of a schedule each such file is kept, and PlanRestore of its app restores each service it asks for from exactly that file |
| BackupHistory.NamesStayInOrder | internal/shelfcore/backup.go:42-90 | over any history of runs and deletes under a clock that does not go back, every backup is named by the program for no later second |
| BackupHistory.ScheduledRunInHistoryIsRestorable | internal/web/scheduler/manager.go:171-183 | so at the end of any history from an empty directory, PlanRestore picks exactly the recent file a successful scheduled run wrote |
| Survival.PruneMayDeleteIff | internal/backup/backup.go:169-221 | Prune can delete a selected file if and only if it is too old or KeepCount others of its group are as new |
| ScheduleStore.SplitServices | internal/web/scheduler/store.go:407-420 | the trimmed non-empty parts in order |
| ScheduleStore.StoredListReadsBackIff | internal/web/scheduler/store.go:403-420 | a stored list reads back unchanged if and only if its names are non-empty, trimmed and comma-free; the empty list is one of those |
| ScheduleStore.ReadingIsIdempotent | internal/web/scheduler/store.go:403-420 | whatever the stored text, the list read is stored with the run and read again unchanged |
| ScheduleStore.Store.CreateSchedule | internal/web/scheduler/store.go:154-177 | a new row under an id never used before |
| ScheduleLaws.CreatedRow | internal/web/scheduler/store.go:154-177 | each column of the new row carries its own field of the input, the service list reads back, and no other schedule and no run changes |
| ScheduleStore.Store.ListSchedules | internal/web/scheduler/store.go:187-206 | every row once, enabled first, then newest id first |
| ScheduleLaws.ListingOrder | internal/web/scheduler/store.go:187-206 | enabled schedules come first, and within each half the newer one |
| ScheduleStore.Store.SetScheduleEnabled | internal/web/scheduler/store.go:208-217 | changes one flag, an error for a missing row |
| ScheduleLaws.EnabledRow | internal/web/scheduler/store.go:208-217 | afterwards the flag is what was asked, and every other column, row and run is as before |
| ScheduleStore.Store.DeleteSchedule | internal/web/scheduler/store.go:219-225 | removes the row and nulls its links; no run is lost |
| ScheduleLaws.DeletedRow | internal/web/scheduler/store.go:219-225 | the row is gone, every run stays with its status, output and end, and exactly the links to the row are null |
| ScheduleStore.Store.StartRun | internal/web/scheduler/store.go:249-268 | a new running row under a fresh id; refused for a schedule that is gone; the row stays when its id cannot be read back |
| ScheduleStore.Store.FinishRun | internal/web/scheduler/store.go:270-284 | ends one row and touches no other |
| ScheduleStore.Store.MarkScheduleRun | internal/web/scheduler/store.go:235-247 | records the last run of one schedule |
| RunHistory.StepKeepsAccounts | internal/web/scheduler/manager.go:140-207 | every step of any worker or edit keeps: rows and workers correspond one to one and agree |
| RunHistory.RunningIff | internal/web/scheduler/manager.go:161-207 | in every reachable state a row is running exactly when its one worker is in flight, failed to write the end, or died or never learnt the id of the row |
| RunHistory.EveryRunHasItsWorker | internal/web/scheduler/store.go:249-268 | every row belongs to a worker that created it |
| RunHistory.StepOnRow | internal/web/scheduler/store.go:219-284 | one step: a row stays, only its own worker's FinishRun moves its status, from running to what the worker judged; a delete at most nulls the link |
| RunHistory.EndedRunsAreFinal | internal/web/scheduler/store.go:219-284 | under any interleaving no run is lost and one that succeeded or failed never changes again |
| RunHistory.IdsAreNeverReused | internal/web/scheduler/store.go:85-85 | whatever follows, a schedule id never comes to mean another schedule |
| RunHistory.StaleJobsRunNothing | internal/web/scheduler/manager.go:149-159 | after a delete, every run of that schedule had already begun: stale cron jobs and loaded workers start nothing |
| ScheduleManager.Manager.AddSchedule | internal/web/scheduler/manager.go:112-138 | adds one live entry exactly when zone and spec are accepted, and keeps the others |
| ScheduleManager.Manager.Reload | internal/web/scheduler/manager.go:81-105 | live cron entries are in bijection with `entries`, whose keys are exactly the enabled accepted schedules; none when listing fails |
| ScheduleManager.Manager.Change | internal/web/server/server.go:536-606 | table and live entries after every create, pause, resume or delete, applied or not, and exactly when they match, from whether they did before: a create that is stored but not read back leaves a live schedule without an entry |
| ScheduleManager.EditsMatchIff | internal/web/server/server.go:536-606 | after any sequence of edits the live entries match the table exactly when the calls, one after the other, keep or restore that |
| ScheduleManager.EditShows | internal/web/server/server.go:536-606 | after an applied edit a paused or deleted schedule has no entry, a resumed or new one has one if and only if it is enabled and accepted, and every other schedule is live as the table says |
| ScheduleManager.SpecIsRead | internal/web/scheduler/manager.go:112-138 | the cron library reads the spec handed to it as the zone and the expression of the schedule |
| ScheduleManager.Manager.Run | internal/web/scheduler/manager.go:161-207 | calls the backup with the schedule's app, services and retention; one run is added, ended as a success exactly when the backup returned no error, with its text, and the schedule shows that status; a row whose end cannot be written stays running; nothing is dumped when the row or its id is missing |
| ScheduleManager.ScheduledRunIsRecorded | internal/web/scheduler/manager.go:183-207 | the row added for a run has the schedule's link, app and services, status success if the backup returned no error and failed otherwise, its end and its text; the schedule's last status is success or failed by the same test, with the text cut at 300; each unless its own write fails |
| ScheduleManager.RanAsScheduled | internal/web/scheduler/manager.go:161-183 | the dumps of such a call are the jobs of the schedule whose survival and restore are proved |
| ScheduleManager.WebServer.RunManualBackup | internal/web/server/server.go:625-649 | calls the backup without retention; one run without a schedule is added, ended as a success exactly when the backup returned no error; it fails when the start, the backup or the final write fails; no schedule changes |
| Dotenv.ParseDotenv | internal/registry/registry.go:294-315 | the last pair of each key over the lines, blanks, comments and lines without `=` skipped |
| Dotenv.PairLine | internal/registry/registry.go:294-315 | a printed pair is read as its key and its value up to the first `=`, trimmed and unquoted |
| Dotenv.ReadsBackIff | internal/registry/registry.go:294-315 | a one-line value is read back unchanged if and only if it is trimmed and not wrapped in quotes |
| Dotenv.QuotedIsRead | internal/registry/registry.go:305-312 | a value in double or single quotes is read as exactly what is between them |
| EnvFile.EnvFileReadsBackIff | internal/registry/registry.go:504-616 | parsing the printed file gives exactly the union of the services' pairs if and only if every printed value is clean |
| EnvFile.RoundTripIff | internal/registry/registry.go:504-534 | the same for any choice and order of services: blocks joined by blank lines, headers as comments |
| EnvFile.CleanEntriesReadBack | internal/registry/registry.go:527-616 | an entry whose fields have no newline, outer whitespace or wrapping quotes reads back as printed |
| EnvFile.UnionHoldsEveryPair | internal/registry/registry.go:536-616 | no key is shared between services or repeated in one |
| EnvFile.ProvisionedConfigIsClean | internal/registry/registry.go:536-616 | what Provision stores under a URL-safe password always reads back |
| EnvFile.EscapeKeepsNames | internal/registry/registry.go:563-563 | PathEscape leaves valid app names as they are |
| EnvFile.EnvFile | internal/registry/registry.go:527-534 | prints the attached services' blocks in catalog order; the `EnvLaws` rows say what each variable carries |
| EnvLaws.PostgresVariables | internal/registry/registry.go:536-546 | DB_USERNAME, DB_PASSWORD and DB_NAME as parsed are the stored user, password and database, host and port are PostgreSQL's, and DATABASE_URL splits back into scheme, user, password, host and database |
| EnvLaws.RedisVariables | internal/registry/registry.go:548-558 | REDIS_USERNAME, REDIS_PASSWORD and REDIS_PREFIX are the stored ones, and REDIS_URL splits back into them, the host and database 0 |
| EnvLaws.RabbitMQVariables | internal/registry/registry.go:560-570 | RABBITMQ_USERNAME, RABBITMQ_PASSWORD and RABBITMQ_VHOST are the stored ones, and AMQP_URL splits back into them and the host |
| EnvLaws.AIStorVariables | internal/registry/registry.go:589-603 | the S3 and AWS variables carry the stored endpoint, bucket, access key and secret key |
| EnvLaws.MongoDBVariables | internal/registry/registry.go:605-616 | MONGODB_USERNAME, MONGODB_PASSWORD and MONGODB_DATABASE are the stored ones, and MONGODB_URL splits back into them, with the database as authentication source |
| EnvLaws.SignozVariables | internal/registry/registry.go:572-587 | OTEL_SERVICE_NAME is the stored service, and the resource attributes are that service, the namespace and the stored environment |
| EnvLaws.OnlyAttachedVariables | internal/registry/registry.go:527-616 | every variable belongs to an attached service |
| RegistryStore.LoadAfterSave | internal/registry/store_save.go:24-53 | Load after Save gives the normalised registry, with or without a secret |
| RegistryStore.SecretIs | internal/registry/registry.go:257-272 | the first non-blank of: INFRA_SHELF_SECRET and INFRA_SHELF_REGISTRY_SECRET of the environment, then the same two of the .env file, trimmed |
| RegistryStore.EnvelopeLoadsIff | internal/registry/registry.go:217-255 | an envelope loads if and only if its algorithm and key derivation are the known ones, a secret is there, and nonce and text decode to what that secret sealed |
| RegistryStore.LoadsWhatIsStored | internal/registry/registry.go:190-215 | what loads has the version and the apps that were stored, or none if the file had none |
| RegistryStore.NormalisedKeepsApps | internal/registry/store_save.go:24-30 | normalising keeps the apps and sets an unset version to 1 |
| RegistryStore.SaveOfLoaded | internal/registry/store_save.go:24-30 | normalising is idempotent and changes a loaded registry exactly when its version is unset |
| RegistryStore.OtherSecretsFail | internal/registry/registry.go:217-255 | an encrypted registry loads with its own secret and, if the cipher is authentic, which the codec assumes, with no other |
| RegistryStore.RegistryFile.AtomicWrite | internal/registry/store_save.go:141-154 | the file system passes through exactly the stated list of states, one for each change the method makes |
| RegistryStore.PathIsOldOrNew | internal/registry/store_save.go:141-154 | in every state a write passes through, the path holds the complete old or the complete new content |
| RegistryStore.ReadersSeeOldOrNew | internal/registry/store_save.go:141-154 | a concurrent or later Load sees the old registry or the new one |
| RegistryStore.CrashesKeepLastRename | internal/registry/store_save.go:141-154 | over any sequence of writes, each cut off anywhere or failing, the path holds the payload of the last one that reached its rename |
| RegistryStore.RegistryFile.Load | internal/registry/registry.go:190-215 | the registry of the file's content, decrypted when it is an envelope |
| RegistryStore.RegistryFile.Save | internal/registry/store_save.go:24-53 | a successful Save is what Load returns, normalised; a failed one leaves the file; in between a Load sees the old registry or the new one |
| RegistryStore.RegistryFile.EncryptInPlace | internal/registry/store_save.go:57-79 | does not change what Load returns, in between either, and leaves a file only the secret opens |
| RegistryStore.RegistryFile.UpsertApp | internal/registry/store_save.go:84-91 | changes one entry of what Load returns |
| RegistryStore.RegistryFile.DeleteApp | internal/registry/store_save.go:94-104 | removes one entry; a missing one is no error and writes nothing |
| RegistryStore.RegistryFile.ListApps | internal/registry/registry.go:317-333 | every app once, by name |
| RegistryStore.ListingIsUnique | internal/registry/registry.go:317-333 | the listing is determined by the registry alone |
| FormatBytes.FormatBytes | internal/web/server/server.go:771-782 | div = 1024^(exp+1), div <= size < 1024 * div, exp within the six letters, no 64-bit overflow |
| FormatBytes.ScaleIsUnique | internal/web/server/server.go:771-782 | div and exp are determined by the size |

## Left out

- SetupHoldsIff: one target; with several, a later `ACL SAVE` that goes through also saves the user of an earlier target whose own save was rejected, and `SetupKeepsInv` gives the sufficient half.
- NamesStayInOrder: assumes a clock that does not go back; the timestamps are in UTC.
- EventLeavesOthersAlone: requires that a Redis client that writes is confined, because one that is not can write any key; `RunsStayConfined` says when it is.
- OtherSecretsFail: that a sealed text opens with no other secret is an assumption of the codec, not a property of the program.
- LoadAfterSave: JSON, AES-256-GCM and base64 are terms whose decoding is the inverse of their encoding; their bytes are not modelled.
- PathIsOldOrNew: one writer at a time, as the engine documents; no power loss after rename, since the program does not sync.
- Sessions that an app opens between the two commands of a PostgreSQL teardown; those open before it are modelled.
- Command texts: SQL, mongosh, mc and rabbitmqctl invocations are single abstract commands on broker state; grants inside PostgreSQL and the contents of dumps are opaque.
- Redis details: key expiry times, the text form of scores, and bytes that are not UTF-8, which the JSON decoder replaces.
- Load errors inside the engine operations: each starts from a registry that was read; the errors of Load itself are in `registry_store.dfy`.
- Broker restarts other than the one that reloads Redis' ACL file.
- The six optional configurations of an entry are one map from service to configuration, and hasService, setServiceConfig and clearServiceConfig are its operations.
- Restore of PostgreSQL, RabbitMQ, AIStor and MongoDB, which replay file contents the program does not inspect.
- ParseSingleEnv and the command-line checks before the engine is called.
- List: an app directory or a file that cannot be read is passed over by the program; here only the backups directory itself can be unreadable.
- The names of backups are strings of one path element; symbolic links and directories in the backups tree are passed over.
- The cron library: entry ids are fresh, and the parser and the zone database are arbitrary predicates; at most one run per schedule is not claimed.
- The columns created_at and updated_at, ListRuns, and the limit of its page.
- Cutting a message at 300 bytes counts characters here.
- time.Now().AddDate: the cutoff is an arbitrary instant.
- Reporter messages, HTTP routes, templates, CLI, configuration discovery, the site builder and the installer.
- The floating-point rendering in formatBytes.
