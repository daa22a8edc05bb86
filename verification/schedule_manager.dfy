// scheduler.Manager: the live cron entries against the stored schedules, and
// one worker's run from start to end.
module ScheduleManager {
  import opened Text
  import opened Registry
  import opened Names
  import opened Sorting
  import opened ScheduleStore
  import opened RunHistory
  import opened ScheduleLaws
  import Retention
  import Backup
  import Dumps
  import Pipeline
  import Survival
  import BackupServiceClass

  type BackupService = BackupServiceClass.BackupService

  // What the cron library and the clock decide: LoadLocation's canonical zone
  // name, the parser, and the next instant.
  datatype CronEnv = CronEnv(
    zone: string -> Option<string>, parses: string -> bool, next: (string, string) -> string)

  datatype CronJob = CronJob(schedule: nat, spec: string)

  function SpecFor(c: Schedule, zone: string, home: string): string
  {
    if zone != home then "CRON_TZ=" + zone + " " + c.cron else c.cron
  }

  // The schedules addSchedule accepts.
  predicate Accepted(c: Schedule, env: CronEnv, home: string)
  {
    env.zone(c.zone).Some? && env.parses(SpecFor(c, env.zone(c.zone).value, home))
  }

  predicate Live(c: Schedule, env: CronEnv, home: string)
  {
    c.enabled && Accepted(c, env, home)
  }

  function LiveIds(db: Db, env: CronEnv, home: string): set<nat>
  {
    set id | id in db.schedules && Live(db.schedules[id], env, home)
  }

  // The table but for the column UpdateNextRun writes.
  ghost predicate SameButNextRun(a: Db, b: Db)
  {
    && a.runs == b.runs && a.lastRun == b.lastRun && a.lastSchedule == b.lastSchedule
    && a.schedules.Keys == b.schedules.Keys
    && forall id :: id in a.schedules ==> a.schedules[id].(nextRun := None) == b.schedules[id].(nextRun := None)
  }

  lemma SameIsTransitive(a: Db, b: Db, c: Db)
    requires SameButNextRun(a, b) && SameButNextRun(b, c)
    ensures SameButNextRun(a, c)
  {
  }

  lemma SameLiveIds(a: Db, b: Db, env: CronEnv, home: string)
    requires SameButNextRun(a, b)
    ensures LiveIds(a, env, home) == LiveIds(b, env, home)
    ensures forall id :: Manager.JobOf(a, id, env, home) == Manager.JobOf(b, id, env, home)
  {
  }

  // What one edit of the UI does to the table.
  datatype Edit = Add(input: ScheduleInput) | Pause(id: nat) | Resume(id: nat) | Drop(id: nat)

  function Edited(db: Db, e: Edit): Db
  {
    match e
    case Add(input) => Created(db, input)
    case Pause(id) => Enabled(db, id, false)
    case Resume(id) => Enabled(db, id, true)
    case Drop(id) => Deleted(db, id)
  }

  // The text FinishRun stores: the log, then the error on its own line.
  function RunOutput(log: string, error: Option<string>): string
  {
    match error
    case None => log
    case Some(e) => (if log != "" then log + "\n" else log) + e
  }

  function BriefOutput(output: string): string
  {
    var s := TrimSpace(output);
    if |s| <= 300 then s else s[..300] + "..."
  }

  // What a backup run was and left behind, for what it was asked: one app or
  // all of them, the services, and the retention.
  ghost predicate Ran(
      apps: Apps, app: string, all: bool, services: seq<string>, o: Backup.PruneOptions, env: Dumps.RunEnv,
      prefix: string, enabled: bool, files0: Backup.Files, s30: Pipeline.Objects,
      files: Backup.Files, s3: Pipeline.Objects,
      outcome: Pipeline.Outcome, jobs: seq<Dumps.Job>, deleted: seq<Retention.File>)
  {
    && (outcome.BackupError? <==> !all && !Dumps.AppRuns(apps, app, services, env))
    && (outcome.BackupError? ==> files == files0 && s3 == s30)
    && (!outcome.BackupError? ==>
          Pipeline.RunResult(files0, s30, prefix, jobs, env, o, enabled, files, s3, outcome, deleted))
    && (!outcome.BackupError? && !all ==> jobs == Dumps.JobsFor(apps, app, services, env))
    && (all ==> JobsOfAll(apps, services, env, jobs))
  }

  ghost predicate JobsOfAll(apps: Apps, services: seq<string>, env: Dumps.RunEnv, jobs: seq<Dumps.Job>)
  {
    exists names :: NameOrder(names, apps.Keys) && jobs == Dumps.AllJobs(names, apps, services, env)
  }

  // For a schedule, the jobs are those whose survival and restore are proved.
  lemma RanAsScheduled(
      apps: Apps, target: string, services: seq<string>, o: Backup.PruneOptions, env: Dumps.RunEnv,
      prefix: string, enabled: bool, files0: Backup.Files, s30: Pipeline.Objects,
      files: Backup.Files, s3: Pipeline.Objects,
      outcome: Pipeline.Outcome, jobs: seq<Dumps.Job>, deleted: seq<Retention.File>)
    requires !outcome.BackupError?
    requires Ran(apps, if target == "*" then "" else target, target == "*", services, o, env, prefix, enabled,
      files0, s30, files, s3, outcome, jobs, deleted)
    ensures exists names :: Distinct(names) && jobs == Survival.ScheduledJobs(names, apps, target, services, env)
  {
    if target == "*" {
      var names :| NameOrder(names, apps.Keys) && jobs == Dumps.AllJobs(names, apps, services, env);
      assert jobs == Survival.ScheduledJobs(names, apps, target, services, env);
    } else {
      var none: seq<string> := [];
      assert Distinct(none) && jobs == Survival.ScheduledJobs(none, apps, target, services, env);
    }
  }

  function ErrorOf(outcome: Pipeline.Outcome, errorText: Pipeline.Outcome -> string): Option<string>
  {
    if outcome.Success? then None else Some(errorText(outcome))
  }

  function VerdictOf(outcome: Pipeline.Outcome): Status
  {
    if outcome.Success? then Status.Success else Status.Failed
  }

  // What Run and RunManualBackup make of the database.
  function AfterRun(
      db: Db, link: Option<nat>, app: string, services: seq<string>, outcome: Pipeline.Outcome, output: string,
      at: string, finishFails: bool): Db
  {
    var started := Started(db, link, app, services);
    if finishFails then started else Finished(started, db.lastRun + 1, VerdictOf(outcome), TrimSpace(output), at)
  }

  lemma FinishedIsRecorded(
      db: Db, link: Option<nat>, app: string, services: seq<string>, outcome: Pipeline.Outcome, log: string,
      error: string, at: string, finishFails: bool)
    ensures var output := RunOutput(log, if outcome.Success? then None else Some(error));
      var end := AfterRun(db, link, app, services, outcome, output, at, finishFails);
      && end.schedules == db.schedules && end.lastSchedule == db.lastSchedule
      && RunRecorded(db, end, link, app, services, outcome == Pipeline.Success, log, error, at, finishFails)
  {
    var output := RunOutput(log, if outcome.Success? then None else Some(error));
    assert TextOf(output, outcome == Pipeline.Success, log, error);
    StoredListReadsBackIff(services);
  }

  lemma ScheduledRunIsRecorded(
      db: Db, end: Db, id: nat, app: string, services: seq<string>, outcome: Pipeline.Outcome,
      log: Pipeline.Outcome -> string, errorText: Pipeline.Outcome -> string, at: string, finishFails: bool,
      markFails: bool)
    requires id in db.schedules
    requires var output := RunOutput(log(outcome), ErrorOf(outcome, errorText));
      var closed := AfterRun(db, Some(id), app, services, outcome, output, at, finishFails);
      end == if markFails then closed else Marked(closed, id, StatusText(VerdictOf(outcome)), BriefOutput(output), at)
    ensures RunRecorded(db, end, Some(id), app, services, outcome == Pipeline.Success, log(outcome),
      errorText(outcome), at, finishFails)
    ensures ScheduleMarked(db, end, id, outcome == Pipeline.Success, log(outcome), errorText(outcome), at, markFails)
  {
    var output := RunOutput(log(outcome), ErrorOf(outcome, errorText));
    assert TextOf(output, outcome == Pipeline.Success, log(outcome), errorText(outcome));
    assert Shortened(BriefOutput(output), TrimSpace(output));
    FinishedIsRecorded(db, Some(id), app, services, outcome, log(outcome), errorText(outcome), at, finishFails);
  }

  // The cron library reads the spec as the schedule's zone and expression.
  lemma SpecIsRead(c: Schedule, zone: string, home: string)
    requires ' ' !in zone && Trimmed(c.cron) && !HasPrefix(c.cron, "CRON_TZ=") && !HasPrefix(c.cron, "TZ=")
    ensures ReadSpec(SpecFor(c, zone, home), home) == (zone, c.cron)
  {
    SpecReadsBack(zone, c.cron, home);
  }

  // Adding a schedule adds its id to the live ones if it is live.
  lemma AddedIsLive(db: Db, input: ScheduleInput, env: CronEnv, home: string)
    requires Consistent(db)
    ensures db.lastSchedule + 1 !in LiveIds(db, env, home)
    ensures LiveIds(Created(db, input), env, home)
      == LiveIds(db, env, home) + if Live(NewSchedule(input), env, home) then {db.lastSchedule + 1} else {}
  {
  }

  // The table and the ids of the live entries.
  datatype Panel = Panel(db: Db, live: set<nat>)

  // One edit by the UI and what fails on the way: the statement, the read-back
  // of a new row, and the listing of the Reload that follows.
  datatype Call = Call(edit: Edit, editFails: bool, readFails: bool, listFails: bool)

  predicate Applies(db: Db, c: Call)
  {
    !c.editFails && (if c.edit.Add? then !c.readFails else c.edit.id in db.schedules)
  }

  // An edit that did not apply may still have been stored: a new schedule whose
  // row could not be read back.
  function TableAfter(db: Db, c: Call): Db
  {
    if Applies(db, c) || (c.edit.Add? && !c.editFails) then Edited(db, c.edit) else db
  }

  // The edit and, if it applied, the Reload.
  ghost predicate Changes(s: Panel, c: Call, t: Panel, env: CronEnv, home: string)
  {
    && SameButNextRun(TableAfter(s.db, c), t.db)
    && t.live == (if !Applies(s.db, c) then s.live else if c.listFails then {}
      else LiveIds(TableAfter(s.db, c), env, home))
  }

  predicate Matched(s: Panel, env: CronEnv, home: string) { s.live == LiveIds(s.db, env, home) }

  // Whether the live entries match the table after the call, told from whether
  // they did before: a Reload listed it, or there was nothing to list; or the
  // edit did not apply, and left no live schedule behind.
  predicate StaysMatched(matched: bool, db: Db, c: Call, env: CronEnv, home: string)
  {
    if Applies(db, c) then !c.listFails || LiveIds(Edited(db, c.edit), env, home) == {}
    else matched && (c.edit.Add? && !c.editFails ==> !Live(NewSchedule(c.edit.input), env, home))
  }

  // No live entry has an id that was never given out.
  ghost predicate Coherent(s: Panel)
  {
    Consistent(s.db) && forall id :: id in s.live ==> id <= s.db.lastSchedule
  }

  lemma EditedIsConsistent(db: Db, e: Edit)
    requires Consistent(db)
    ensures Consistent(Edited(db, e)) && Edited(db, e).lastSchedule >= db.lastSchedule
  {
  }

  lemma ChangeStaysCoherent(s: Panel, c: Call, t: Panel, env: CronEnv, home: string)
    requires Coherent(s) && Changes(s, c, t, env, home)
    ensures Coherent(t)
  {
    EditedIsConsistent(s.db, c.edit);
  }

  lemma ChangeMatchesIff(s: Panel, c: Call, t: Panel, env: CronEnv, home: string)
    requires Coherent(s) && Changes(s, c, t, env, home)
    ensures Matched(t, env, home) <==> StaysMatched(Matched(s, env, home), s.db, c, env, home)
  {
    SameLiveIds(TableAfter(s.db, c), t.db, env, home);
    if c.edit.Add? {
      AddedIsLive(s.db, c.edit.input, env, home);
    }
  }

  // What an applied edit does to the live entries: a paused or deleted schedule
  // has none, a resumed or new one has its own if zone and expression are
  // accepted, and every other schedule is live as the table says.
  lemma EditShows(s: Panel, c: Call, t: Panel, env: CronEnv, home: string)
    requires Coherent(s) && Changes(s, c, t, env, home) && Applies(s.db, c) && !c.listFails
    ensures c.edit.Pause? || c.edit.Drop? ==> c.edit.id !in t.live
    ensures c.edit.Resume? ==> (c.edit.id in t.live <==> Accepted(s.db.schedules[c.edit.id], env, home))
    ensures c.edit.Add? ==>
      (s.db.lastSchedule + 1 in t.live <==> c.edit.input.enabled && Accepted(NewSchedule(c.edit.input), env, home))
    ensures forall k :: k in s.db.schedules && (c.edit.Add? || k != c.edit.id) ==>
      (k in t.live <==> k in LiveIds(s.db, env, home))
  {
  }

  // A sequence of edits.
  ghost predicate Edits(states: seq<Panel>, calls: seq<Call>, env: CronEnv, home: string)
  {
    && |states| == |calls| + 1
    && forall i {:trigger calls[i]} :: 0 <= i < |calls| ==> Changes(states[i], calls[i], states[i + 1], env, home)
  }

  // The same test, call after call.
  predicate MatchedAfter(matched: bool, states: seq<Panel>, calls: seq<Call>, k: nat, env: CronEnv, home: string)
    requires k <= |calls| < |states|
    decreases k
  {
    if k == 0 then matched
    else StaysMatched(MatchedAfter(matched, states, calls, k - 1, env, home), states[k - 1].db, calls[k - 1], env, home)
  }

  lemma {:induction false} EditsStayCoherent(
      states: seq<Panel>, calls: seq<Call>, k: nat, env: CronEnv, home: string)
    requires Edits(states, calls, env, home) && k <= |calls| && Coherent(states[0])
    ensures Coherent(states[k])
    decreases k
  {
    if k > 0 {
      EditsStayCoherent(states, calls, k - 1, env, home);
      ChangeStaysCoherent(states[k - 1], calls[k - 1], states[k], env, home);
    }
  }

  // After any sequence of edits the live entries match the table exactly when
  // the calls, one after the other, keep or restore that.
  lemma EditsMatchIff(states: seq<Panel>, calls: seq<Call>, k: nat, env: CronEnv, home: string)
    requires Edits(states, calls, env, home) && k <= |calls| && Coherent(states[0])
    ensures Matched(states[k], env, home)
      <==> MatchedAfter(Matched(states[0], env, home), states, calls, k, env, home)
  {
    var matched := seq(|states|, i requires 0 <= i < |states| => Matched(states[i], env, home));
    forall i {:trigger calls[i]} | 0 <= i < |calls|
      ensures matched[i + 1] == StaysMatched(matched[i], states[i].db, calls[i], env, home)
    {
      EditsStayCoherent(states, calls, i, env, home);
      ChangeMatchesIff(states[i], calls[i], states[i + 1], env, home);
    }
    VerdictsChain(matched, states, calls, k, env, home);
  }

  lemma {:induction false} VerdictsChain(
      matched: seq<bool>, states: seq<Panel>, calls: seq<Call>, k: nat, env: CronEnv, home: string)
    requires |matched| == |states| == |calls| + 1 && k <= |calls|
    requires forall i {:trigger calls[i]} :: 0 <= i < |calls| ==>
      matched[i + 1] == StaysMatched(matched[i], states[i].db, calls[i], env, home)
    ensures matched[k] == MatchedAfter(matched[0], states, calls, k, env, home)
    decreases k
  {
    if k > 0 {
      VerdictsChain(matched, states, calls, k - 1, env, home);
    }
  }

  class Manager {
    const store: Store
    const runner: BackupService
    const home: string
    var entries: map<nat, nat>
    var cron: map<nat, CronJob>
    var lastEntry: nat

    // Live cron entries and `entries` are in bijection, each entry with the
    // job of its own schedule; cron never reuses an entry id.
    ghost predicate Valid()
      reads this
    {
      && (forall id :: id in entries ==> entries[id] in cron && cron[entries[id]].schedule == id)
      && (forall e :: e in cron ==> e <= lastEntry && cron[e].schedule in entries && entries[cron[e].schedule] == e)
    }

    constructor (store: Store, runner: BackupService, home: string)
      ensures Valid() && this.store == store && this.runner == runner && this.home == home
      ensures entries == map[] && cron == map[]
    {
      this.store := store;
      this.runner := runner;
      this.home := home;
      entries, cron, lastEntry := map[], map[], 0;
    }

    // cron.AddFunc under a fresh entry id.
    method AddFunc(id: nat, spec: string)
      requires Valid() && id !in entries
      modifies this
      ensures Valid() && entries.Keys == old(entries.Keys) + {id} && cron[entries[id]] == CronJob(id, spec)
      ensures forall k :: k in old(entries) ==>
        entries[k] == old(entries[k]) && cron[entries[k]] == old(cron[entries[k]])
    {
      lastEntry := lastEntry + 1;
      cron := cron[lastEntry := CronJob(id, spec)];
      entries := entries[id := lastEntry];
    }

    // addSchedule; an error leaves the schedule out.
    method AddSchedule(id: nat, c: Schedule, env: CronEnv, nextFails: bool) returns (ok: bool)
      requires Valid() && Consistent(store.db) && id !in entries
      modifies this, store
      ensures Valid() && Consistent(store.db) && SameButNextRun(old(store.db), store.db)
      ensures ok == Accepted(c, env, home)
      ensures !ok ==> entries == old(entries) && cron == old(cron) && store.db == old(store.db)
      ensures ok ==> entries.Keys == old(entries.Keys) + {id}
      ensures ok ==> cron[entries[id]] == CronJob(id, SpecFor(c, env.zone(c.zone).value, home))
      ensures ok ==> forall k :: k in old(entries) ==>
        entries[k] == old(entries[k]) && cron[entries[k]] == old(cron[entries[k]])
      ensures ok && env.parses(c.cron) && !nextFails && id in store.db.schedules ==>
        store.db.schedules[id].nextRun == Some(env.next(c.cron, env.zone(c.zone).value))
    {
      var zone := env.zone(c.zone);
      if zone == None {
        return false;
      }
      var spec := c.cron;
      if zone.value != home {
        spec := "CRON_TZ=" + zone.value + " " + c.cron;
      }
      if !env.parses(spec) {
        return false;
      }
      AddFunc(id, spec);
      if env.parses(c.cron) {
        store.UpdateNextRun(id, env.next(c.cron, zone.value), nextFails);
      }
      ok := true;
    }

    // The first loop of Reload.
    method RemoveEntries()
      requires Valid()
      modifies this
      ensures entries == map[] && cron == map[] && Valid()
    {
      var left := entries.Keys;
      while left != {}
        invariant left <= entries.Keys && entries == old(entries)
        invariant forall e :: e in cron <==> e in old(cron) && old(cron[e]).schedule in left
        invariant forall e :: e in cron ==> cron[e] == old(cron[e])
        decreases |left|
      {
        var id :| id in left;
        cron := cron - {entries[id]};
        left := left - {id};
      }
      entries := map[];
    }

    // Reload. Afterwards the live entries are exactly those of the enabled
    // schedules whose zone and spec are accepted; none when listing fails.
    method Reload(env: CronEnv, listFails: bool, nextFails: bool) returns (ok: bool)
      requires Valid() && Consistent(store.db)
      modifies this, store
      ensures Valid() && Consistent(store.db) && SameButNextRun(old(store.db), store.db)
      ensures ok == !listFails
      ensures !ok ==> entries == map[] && cron == map[]
      ensures ok ==> entries.Keys == LiveIds(store.db, env, home)
      ensures ok ==> forall id :: id in entries ==> cron[entries[id]] == JobOf(store.db, id, env, home)
    {
      RemoveEntries();
      var ids := store.ListSchedules(listFails);
      if ids == None {
        return false;
      }
      ghost var listed := store.db;
      AddEach(ids.value, env, nextFails);
      SameLiveIds(listed, store.db, env, home);
      ok := true;
    }

    // The second loop of Reload, over the rows as listed.
    method AddEach(ids: seq<nat>, env: CronEnv, nextFails: bool)
      requires Valid() && Consistent(store.db) && entries == map[] && ListsAll(store.db, ids)
      modifies this, store
      ensures Valid() && Consistent(store.db) && SameButNextRun(old(store.db), store.db)
      ensures entries.Keys == LiveIds(old(store.db), env, home)
      ensures forall id :: id in entries ==> cron[entries[id]] == JobOf(old(store.db), id, env, home)
    {
      ghost var before := store.db;
      var snapshot := store.db.schedules;
      for i := 0 to |ids|
        invariant Valid() && Consistent(store.db) && SameButNextRun(before, store.db)
        invariant forall id :: id in entries <==> id in ids[..i] && id in snapshot && Live(snapshot[id], env, home)
        invariant forall id :: id in entries ==> cron[entries[id]] == JobOf(before, id, env, home)
      {
        var id := ids[i];
        NextListed(before, ids, i);
        ghost var mid := store.db;
        AddIfEnabled(id, snapshot[id], env, nextFails);
        SameIsTransitive(before, mid, store.db);
      }
      assert ids[..|ids|] == ids;
    }

    // The body of that loop, for one row.
    method AddIfEnabled(id: nat, c: Schedule, env: CronEnv, nextFails: bool)
      requires Valid() && Consistent(store.db) && id !in entries
      modifies this, store
      ensures Valid() && Consistent(store.db) && SameButNextRun(old(store.db), store.db)
      ensures entries.Keys == old(entries.Keys) + if Live(c, env, home) then {id} else {}
      ensures Live(c, env, home) ==> cron[entries[id]] == CronJob(id, SpecFor(c, env.zone(c.zone).value, home))
      ensures forall k :: k in old(entries) ==> cron[entries[k]] == old(cron[entries[k]])
    {
      if c.enabled {
        var added := AddSchedule(id, c, env, nextFails);
      }
    }

    static function JobOf(db: Db, id: nat, env: CronEnv, home: string): CronJob
    {
      if id in db.schedules && env.zone(db.schedules[id].zone).Some? then
        CronJob(id, SpecFor(db.schedules[id], env.zone(db.schedules[id].zone).value, home))
      else CronJob(id, "")
    }

    static lemma NextListed(db: Db, ids: seq<nat>, i: nat)
      requires ListsAll(db, ids) && i < |ids|
      ensures ids[i] in db.schedules && ids[i] !in ids[..i]
      ensures forall k :: k in ids[..i + 1] <==> k in ids[..i] || k == ids[i]
    {
      assert ids[i] in ids && ids[..i + 1] == ids[..i] + [ids[i]];
      forall k | 0 <= k < i
        ensures ids[k] != ids[i]
      {
        assert Before(db, ids[k], ids[i]);
      }
    }

    ghost function Shown(): Panel
      reads this, store
    {
      Panel(store.db, entries.Keys)
    }

    // An edit of the schedules and the Reload that follows it. An edit that did
    // not apply reloads nothing.
    method Change(c: Call, env: CronEnv, nextFails: bool) returns (edited: bool)
      requires Valid() && Coherent(Shown())
      modifies this, store
      ensures Valid() && Coherent(Shown()) && edited == Applies(old(store.db), c)
      ensures Changes(old(Shown()), c, Shown(), env, home)
      ensures edited && c.listFails ==> cron == map[]
      ensures !edited ==> entries == old(entries) && cron == old(cron) && store.db == TableAfter(old(store.db), c)
      ensures Matched(Shown(), env, home)
        <==> StaysMatched(Matched(old(Shown()), env, home), old(store.db), c, env, home)
    {
      ghost var before := Shown();
      edited := EditTable(c);
      ghost var mid := store.db;
      if edited {
        var ok := Reload(env, c.listFails, nextFails);
        SameLiveIds(mid, store.db, env, home);
      }
      ChangeStaysCoherent(before, c, Shown(), env, home);
      ChangeMatchesIff(before, c, Shown(), env, home);
    }

    // The statement of the edit.
    method EditTable(c: Call) returns (edited: bool)
      requires Consistent(store.db)
      modifies store
      ensures Consistent(store.db) && edited == Applies(old(store.db), c) && store.db == TableAfter(old(store.db), c)
    {
      match c.edit {
        case Add(input) =>
          var r, id := store.CreateSchedule(input, c.editFails, c.readFails);
          edited := r.Some?;
        case Pause(id) => edited := store.SetScheduleEnabled(id, false, c.editFails);
        case Resume(id) => edited := store.SetScheduleEnabled(id, true, c.editFails);
        case Drop(id) => edited := store.DeleteSchedule(id, c.editFails);
      }
    }

    // run, for a schedule already loaded, with nothing in between: the backup
    // and the retention the schedule asks for, and on the database the effect
    // of the worker's own steps.
    method Run(id: nat, c: Schedule, apps: Apps, env: Dumps.RunEnv,
        log: Pipeline.Outcome -> string, errorText: Pipeline.Outcome -> string, at: string,
        startFails: bool, idFails: bool, finishFails: bool, markFails: bool)
      returns (ghost started: bool, ghost outcome: Pipeline.Outcome, ghost jobs: seq<Dumps.Job>,
        ghost deleted: seq<Retention.File>)
      requires Consistent(store.db) && runner.disk == runner.engine.disk
      modifies store, runner, runner.disk
      ensures Consistent(store.db) && started == (!startFails && !idFails && id in old(store.db).schedules)
      ensures !started ==> runner.disk.files == old(runner.disk.files) && runner.s3 == old(runner.s3)
      ensures !started && !startFails && idFails ==>
        store.db == Steps(Sys(old(store.db), [WorkerOf(id, c)]), [Start(0, false), Die(0)]).db
      ensures startFails || id !in old(store.db).schedules ==> store.db == old(store.db)
      ensures started ==> Ran(apps, if c.app == "*" then "" else c.app, c.app == "*", ServicesOf(c.services),
        Survival.ScheduledPrune(c.app, ServicesOf(c.services), c.keepDays, c.keepCount), env, runner.prefix,
        runner.enabled,
        old(runner.disk.files), old(runner.s3), runner.disk.files, runner.s3, outcome, jobs, deleted)
      ensures started ==> store.db == Steps(Sys(old(store.db), [WorkerOf(id, c)]),
        WorkerSteps(outcome, RunOutput(log(outcome), ErrorOf(outcome, errorText)), at, finishFails, markFails)).db
      ensures started ==> RunRecorded(old(store.db), store.db, Some(id), c.app, ServicesOf(c.services),
        outcome == Pipeline.Success, log(outcome), errorText(outcome), at, finishFails)
      ensures started ==> ScheduleMarked(old(store.db), store.db, id, outcome == Pipeline.Success, log(outcome),
        errorText(outcome), at, markFails)
    {
      jobs, deleted, outcome := [], [], Pipeline.BackupError;
      started := false;
      var services := SplitServices(c.services);
      ghost var db0 := store.db;
      var run := store.StartRun(Some(id), c.app, services, startFails, idFails);
      if run == None {
        UntoldWorker(db0, WorkerOf(id, c));
        return;
      }
      started := true;
      var result;
      result, jobs, deleted := Launch(c, services, apps, env);
      outcome := result;
      Conclude(id, run.value, result, log(result), errorText(result), at, finishFails, markFails);
      RunAlone(db0, WorkerOf(id, c), false, VerdictOf(result),
        TrimSpace(RunOutput(log(result), ErrorOf(result, errorText))), at,
        finishFails, BriefOutput(RunOutput(log(result), ErrorOf(result, errorText))), markFails);
      ScheduledRunIsRecorded(db0, store.db, id, c.app, services, result, log, errorText, at, finishFails, markFails);
    }

    // The call of the runner.
    method Launch(c: Schedule, services: seq<string>, apps: Apps, env: Dumps.RunEnv)
      returns (outcome: Pipeline.Outcome, ghost jobs: seq<Dumps.Job>, deleted: seq<Retention.File>)
      requires runner.disk == runner.engine.disk
      modifies runner, runner.disk
      ensures Ran(apps, if c.app == "*" then "" else c.app, c.app == "*", services,
        Survival.ScheduledPrune(c.app, services, c.keepDays, c.keepCount), env, runner.prefix, runner.enabled,
        old(runner.disk.files), old(runner.s3), runner.disk.files, runner.s3, outcome, jobs, deleted)
    {
      var all := c.app == "*";
      var appName := c.app;
      if all {
        appName := "";
      }
      outcome, jobs, deleted := runner.BackupWithRetention(apps, appName, all, services,
        Backup.PruneOptions(c.app, all, services, c.keepDays, c.keepCount), env);
    }

    // What follows the backup: the end of the run and the schedule's mark.
    method Conclude(id: nat, run: nat, outcome: Pipeline.Outcome, log: string, errorText: string, at: string,
        finishFails: bool, markFails: bool)
      requires Consistent(store.db) && run in store.db.runs
      modifies store
      ensures Consistent(store.db)
      ensures var output := RunOutput(log, if outcome.Success? then None else Some(errorText));
        var closed := if finishFails then old(store.db)
          else Finished(old(store.db), run, VerdictOf(outcome), TrimSpace(output), at);
        store.db == if markFails then closed
          else Marked(closed, id, StatusText(VerdictOf(outcome)), BriefOutput(output), at)
    {
      var status := Status.Success;
      var output := log;
      if !outcome.Success? {
        status := Status.Failed;
        if output != "" {
          output := output + "\n";
        }
        output := output + errorText;
      }
      var wrote := store.FinishRun(run, status, TrimSpace(output), at, finishFails);
      store.MarkScheduleRun(id, StatusText(status), BriefOutput(output), at, markFails);
    }

    static function WorkerOf(id: nat, c: Schedule): Worker
    {
      Worker(Some(id), c.app, ServicesOf(c.services), None, Loaded)
    }

    static function WorkerSteps(
        outcome: Pipeline.Outcome, output: string, at: string, finishFails: bool, markFails: bool): seq<Action>
    {
      [Start(0, false), Work(0, VerdictOf(outcome), TrimSpace(output)), Finish(0, at, finishFails),
        Mark(0, BriefOutput(output), at, markFails)]
    }

    // What a worker by itself makes of the database.
    static lemma RunAlone(
        db: Db, k: Worker, startFails: bool, status: Status, output: string, at: string, finishFails: bool,
        brief: string, markFails: bool)
      requires k.phase.Loaded? && k.link.Some? && status != Running && Consistent(db)
      ensures var end := Steps(Sys(db, [k]),
          [Start(0, startFails), Work(0, status, output), Finish(0, at, finishFails),
            Mark(0, brief, at, markFails)]).db;
        if startFails || !MayStart(db, k.link) then end == db
        else
          var closed := AfterFinish(db, k, status, output, at, finishFails);
          end == if markFails then closed else Marked(closed, k.link.value, StatusText(status), brief, at)
    {
      var s0 := Sys(db, [k]);
      var a, b, c, d := Start(0, startFails), Work(0, status, output), Finish(0, at, finishFails),
        Mark(0, brief, at, markFails);
      StepsCons(s0, a, [b, c, d]);
      StepsCons(Step(s0, a), b, [c, d]);
      StepsCons(Step(Step(s0, a), b), c, [d]);
      StepsCons(Step(Step(Step(s0, a), b), c), d, []);
      if startFails || !MayStart(db, k.link) {
        RefusedStaysRefused(Step(s0, a), b, c, d);
      } else {
        AloneFinishes(db, k, status, output, at, finishFails);
      }
    }

    static lemma RefusedStaysRefused(s: Sys, b: Action, c: Action, d: Action)
      requires |s.workers| == 1 && s.workers[0].phase.Refused? && b.Work? && c.Finish? && d.Mark?
      requires b.w == c.w == d.w == 0
      ensures Step(Step(Step(s, b), c), d).db == s.db
    {
    }

    // The first three steps of a worker that may start.
    static lemma AloneFinishes(db: Db, k: Worker, status: Status, output: string, at: string, finishFails: bool)
      requires k.phase.Loaded? && status != Running && Consistent(db) && MayStart(db, k.link)
      ensures var end := Step(Step(Step(Sys(db, [k]), Start(0, false)), Work(0, status, output)),
        Finish(0, at, finishFails));
        && end.db == AfterFinish(db, k, status, output, at, finishFails)
        && |end.workers| == 1 && end.workers[0].link == k.link
        && end.workers[0].phase == if k.link.Some? then Closed(!finishFails, status, output)
          else Ended(!finishFails, status, output)
    {
      var s1 := Step(Sys(db, [k]), Start(0, false));
      assert s1.db == Started(db, k.link, k.app, k.services);
      assert s1.workers == [k.(phase := Working, run := Some(db.lastRun + 1))];
      var s2 := Step(s1, Work(0, status, output));
      assert s2.workers == [k.(phase := Judged(status, output), run := Some(db.lastRun + 1))];
    }

    static function AfterFinish(db: Db, k: Worker, status: Status, output: string, at: string, finishFails: bool): Db
    {
      var started := Started(db, k.link, k.app, k.services);
      if finishFails then started else Finished(started, db.lastRun + 1, status, output, at)
    }

    // A worker that never learns the id of its row.
    static lemma UntoldWorker(db: Db, k: Worker)
      requires k.phase.Loaded?
      ensures Steps(Sys(db, [k]), [Start(0, false), Die(0)]).db
        == if MayStart(db, k.link) then Started(db, k.link, k.app, k.services) else db
    {
      var s0 := Sys(db, [k]);
      StepsCons(s0, Start(0, false), [Die(0)]);
      StepsCons(Step(s0, Start(0, false)), Die(0), []);
    }

    static lemma StepsCons(s: Sys, e: Action, rest: seq<Action>)
      ensures Steps(s, [e] + rest) == Steps(Step(s, e), rest)
    {
      assert ([e] + rest)[1..] == rest;
    }
  }

  // The server's own runs, without a schedule.
  class WebServer {
    const store: Store
    const backups: BackupService

    constructor (store: Store, backups: BackupService)
      ensures this.store == store && this.backups == backups
    {
      this.store := store;
      this.backups := backups;
    }

    // runManualBackup: no retention. A failed FinishRun is reported only when
    // the backup itself worked.
    method RunManualBackup(app: string, all: bool, services: seq<string>, apps: Apps, env: Dumps.RunEnv,
        log: Pipeline.Outcome -> string, errorText: Pipeline.Outcome -> string, at: string,
        startFails: bool, idFails: bool, finishFails: bool)
      returns (failed: bool, ghost outcome: Pipeline.Outcome, ghost jobs: seq<Dumps.Job>,
        ghost deleted: seq<Retention.File>)
      requires Consistent(store.db) && backups.disk == backups.engine.disk
      modifies store, backups, backups.disk
      ensures Consistent(store.db)
      ensures startFails ==> failed && store.db == old(store.db)
      ensures startFails || idFails ==> backups.disk.files == old(backups.disk.files) && backups.s3 == old(backups.s3)
      ensures !startFails && idFails ==>
        failed && store.db == Steps(Sys(old(store.db), [ManualWorker(app, all, services)]),
          [Start(0, false), Die(0)]).db
      ensures !startFails && !idFails ==> failed == (!outcome.Success? || finishFails)
      ensures !startFails && !idFails ==> Ran(apps, app, all, services, Backup.PruneOptions("", false, [], 0, 0), env,
        backups.prefix, backups.enabled, old(backups.disk.files), old(backups.s3), backups.disk.files, backups.s3,
        outcome, jobs, deleted)
      ensures !startFails && !idFails ==> store.db == Steps(Sys(old(store.db), [ManualWorker(app, all, services)]),
        ManualSteps(outcome, RunOutput(log(outcome), ErrorOf(outcome, errorText)), at, finishFails)).db
      ensures !startFails && !idFails ==> store.db.schedules == old(store.db).schedules
      ensures !startFails && !idFails ==> RunRecorded(old(store.db), store.db, None, if all then "*" else app, services,
        outcome == Pipeline.Success, log(outcome), errorText(outcome), at, finishFails)
    {
      jobs, deleted, outcome := [], [], Pipeline.BackupError;
      var recordName := app;
      if all {
        recordName := "*";
      }
      var run := store.StartRun(None, recordName, services, startFails, idFails);
      if run == None {
        Manager.UntoldWorker(old(store.db), ManualWorker(app, all, services));
        return true, outcome, jobs, deleted;
      }
      var result, gone;
      result, jobs, gone := backups.BackupWithRetention(apps, app, all, services,
        Backup.PruneOptions("", false, [], 0, 0), env);
      outcome, deleted := result, gone;
      failed := CloseManual(run.value, result, log(result), errorText(result), at, finishFails);
      ManualAlone(old(store.db), ManualWorker(app, all, services), false, VerdictOf(result),
        TrimSpace(RunOutput(log(result), ErrorOf(result, errorText))), at, finishFails);
      FinishedIsRecorded(old(store.db), None, if all then "*" else app, services, result, log(result),
        errorText(result), at, finishFails);
    }

    // What follows the backup.
    method CloseManual(
        run: nat, outcome: Pipeline.Outcome, log: string, errorText: string, at: string, finishFails: bool)
      returns (failed: bool)
      requires Consistent(store.db) && run in store.db.runs
      modifies store
      ensures Consistent(store.db) && failed == (!outcome.Success? || finishFails)
      ensures var output := RunOutput(log, if outcome.Success? then None else Some(errorText));
        store.db == if finishFails then old(store.db)
          else Finished(old(store.db), run, VerdictOf(outcome), TrimSpace(output), at)
    {
      var status := Status.Success;
      var output := log;
      if !outcome.Success? {
        status := Status.Failed;
        if output != "" {
          output := output + "\n";
        }
        output := output + errorText;
      }
      var wrote := store.FinishRun(run, status, TrimSpace(output), at, finishFails);
      failed := (!wrote && outcome.Success?) || !outcome.Success?;
    }

    static function RecordName(app: string, all: bool): string { if all then "*" else app }

    static function ManualSteps(outcome: Pipeline.Outcome, output: string, at: string, finishFails: bool): seq<Action>
    {
      [Start(0, false), Work(0, VerdictOf(outcome), TrimSpace(output)), Finish(0, at, finishFails)]
    }

    static function ManualWorker(app: string, all: bool, services: seq<string>): Worker
    {
      Worker(None, RecordName(app, all), services, None, Loaded)
    }

    static lemma ManualAlone(
        db: Db, k: Worker, startFails: bool, status: Status, output: string, at: string, finishFails: bool)
      requires k.phase.Loaded? && k.link == None && status != Running && Consistent(db)
      ensures Steps(Sys(db, [k]), [Start(0, startFails), Work(0, status, output), Finish(0, at, finishFails)]).db
        == if startFails then db else Manager.AfterFinish(db, k, status, output, at, finishFails)
    {
      var s0 := Sys(db, [k]);
      var a, b, c := Start(0, startFails), Work(0, status, output), Finish(0, at, finishFails);
      Manager.StepsCons(s0, a, [b, c]);
      Manager.StepsCons(Step(s0, a), b, [c]);
      Manager.StepsCons(Step(Step(s0, a), b), c, []);
      if !startFails {
        Manager.AloneFinishes(db, k, status, output, at, finishFails);
      }
    }
  }
}
