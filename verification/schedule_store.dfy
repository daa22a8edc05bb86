// The scheduler's database: the schedules and backup_runs tables, the service
// lists stored in them, and the store's methods.
module ScheduleStore {
  import opened Text
  import opened Names
  import opened Registry

  // ------------------------------------------------------------ service lists

  function JoinServices(services: seq<string>): string { Join(services, ",") }

  function ServicesOf(value: string): seq<string>
  {
    if value == "" then [] else NonEmptyTrimmed(Split(value, ','))
  }

  method SplitServices(value: string) returns (services: seq<string>)
    ensures services == ServicesOf(value)
  {
    if value == "" {
      return [];
    }
    var parts := Split(value, ',');
    services := [];
    for n := 0 to |parts|
      invariant services == NonEmptyTrimmed(parts[..n])
    {
      NonEmptyTrimmedSnoc(parts, n);
      var part := TrimSpace(parts[n]);
      if part != "" {
        services := services + [part];
      }
    }
    assert parts[..|parts|] == parts;
  }

  predicate Storable(services: seq<string>)
  {
    forall i :: 0 <= i < |services| ==> services[i] != "" && ',' !in services[i] && Trimmed(services[i])
  }

  lemma {:induction false} TrimmedListIsFixed(s: seq<string>)
    requires Storable(s)
    ensures NonEmptyTrimmed(s) == s
  {
    if s != [] {
      TrimFixes(s[0]);
      TrimmedListIsFixed(s[1..]);
    }
  }

  lemma {:induction false} ReadListIsStorable(parts: seq<string>)
    requires forall i :: 0 <= i < |parts| ==> ',' !in parts[i]
    ensures Storable(NonEmptyTrimmed(parts))
  {
    if parts != [] {
      ReadListIsStorable(parts[1..]);
      TrimKeepsOut(parts[0], ',');
      TrimFixes(parts[0]);
    }
  }

  // A stored list reads back unchanged exactly when its names are non-empty,
  // trimmed and free of commas; the empty list ("all") is one of those.
  lemma StoredListReadsBackIff(services: seq<string>)
    ensures ServicesOf(JoinServices(services)) == services <==> Storable(services)
  {
    var text := JoinServices(services);
    if Storable(services) && services != [] {
      SplitJoin(services, ',');
      TrimmedListIsFixed(services);
    }
    if ServicesOf(text) == services && text != "" {
      ReadListIsStorable(Split(text, ','));
    }
  }

  // What was read is stored and read again unchanged, whatever the text: the
  // run row shows the list the run used.
  lemma ReadingIsIdempotent(value: string)
    ensures ServicesOf(JoinServices(ServicesOf(value))) == ServicesOf(value)
  {
    if value != "" {
      ReadListIsStorable(Split(value, ','));
    }
    StoredListReadsBackIff(ServicesOf(value));
  }

  // ------------------------------------------------------------------- tables

  // Timestamps are opaque texts; created_at and updated_at are left out.
  datatype Schedule = Schedule(
    app: string, services: string, cron: string, zone: string, keepDays: int, keepCount: int, enabled: bool,
    lastRun: Option<string>, nextRun: Option<string>, lastStatus: string, lastMessage: string)

  datatype ScheduleInput = ScheduleInput(
    app: string, services: seq<string>, cron: string, zone: string, keepDays: int, keepCount: int, enabled: bool)

  datatype Status = Running | Success | Failed

  datatype Run = Run(
    schedule: Option<nat>, app: string, services: string, status: Status, output: string, finished: Option<string>)

  // `lastSchedule` and `lastRun` are AUTOINCREMENT's high-water marks.
  datatype Db = Db(schedules: map<nat, Schedule>, lastSchedule: nat, runs: map<nat, Run>, lastRun: nat)

  const NO_ROWS: Db := Db(map[], 0, map[], 0)

  // Ids stay below the high-water marks, and a run's schedule exists: the
  // foreign key.
  ghost predicate Consistent(db: Db)
  {
    && (forall id :: id in db.schedules ==> 1 <= id <= db.lastSchedule)
    && (forall id :: id in db.runs ==> 1 <= id <= db.lastRun)
    && (forall id :: id in db.runs && db.runs[id].schedule.Some? ==> db.runs[id].schedule.value in db.schedules)
  }

  function NewSchedule(input: ScheduleInput): Schedule
  {
    Schedule(input.app, JoinServices(input.services), input.cron, input.zone, input.keepDays, input.keepCount,
      input.enabled, None, None, "", "")
  }

  function Created(db: Db, input: ScheduleInput): Db
  {
    db.(lastSchedule := db.lastSchedule + 1,
        schedules := db.schedules[db.lastSchedule + 1 := NewSchedule(input)])
  }

  function Enabled(db: Db, id: nat, on: bool): Db
  {
    if id in db.schedules then db.(schedules := db.schedules[id := db.schedules[id].(enabled := on)]) else db
  }

  function Unlinked(r: Run, id: nat): Run
  {
    if r.schedule == Some(id) then r.(schedule := None) else r
  }

  // DELETE with ON DELETE SET NULL.
  function Deleted(db: Db, id: nat): Db
  {
    if id in db.schedules then
      db.(schedules := db.schedules - {id}, runs := map r | r in db.runs :: Unlinked(db.runs[r], id))
    else db
  }

  function WithNextRun(db: Db, id: nat, at: string): Db
  {
    if id in db.schedules then db.(schedules := db.schedules[id := db.schedules[id].(nextRun := Some(at))]) else db
  }

  function Marked(db: Db, id: nat, status: string, message: string, at: string): Db
  {
    if id in db.schedules then
      db.(schedules := db.schedules[id :=
        db.schedules[id].(lastRun := Some(at), lastStatus := status, lastMessage := message)])
    else db
  }

  // The insert of StartRun: the foreign key refuses an unknown schedule.
  predicate MayStart(db: Db, schedule: Option<nat>)
  {
    schedule.Some? ==> schedule.value in db.schedules
  }

  function Started(db: Db, schedule: Option<nat>, app: string, services: seq<string>): Db
  {
    db.(lastRun := db.lastRun + 1,
        runs := db.runs[db.lastRun + 1 := Run(schedule, app, JoinServices(services), Running, "", None)])
  }

  function Finished(db: Db, id: nat, status: Status, output: string, at: string): Db
  {
    if id in db.runs then
      db.(runs := db.runs[id := db.runs[id].(status := status, output := output, finished := Some(at))])
    else db
  }

  // ORDER BY enabled DESC, id DESC.
  predicate Before(db: Db, a: nat, b: nat)
    requires a in db.schedules && b in db.schedules
  {
    || (db.schedules[a].enabled && !db.schedules[b].enabled)
    || (db.schedules[a].enabled == db.schedules[b].enabled && a > b)
  }

  ghost predicate ListsAll(db: Db, ids: seq<nat>)
  {
    && (forall id :: id in ids <==> id in db.schedules)
    && (forall i, j :: 0 <= i < j < |ids| ==>
      ids[i] in db.schedules && ids[j] in db.schedules && Before(db, ids[i], ids[j]))
  }

  // scheduler.Store. Each statement may fail; a failed one changes nothing.
  class Store {
    var db: Db

    constructor ()
      ensures db == NO_ROWS && Consistent(db)
    {
      db := NO_ROWS;
    }

    // The new row is read back; when only that fails the row is there all the
    // same.
    method CreateSchedule(input: ScheduleInput, fails: bool, readFails: bool)
      returns (r: Option<Schedule>, ghost id: nat)
      requires Consistent(db)
      modifies this
      ensures Consistent(db)
      ensures fails ==> r == None && db == old(db)
      ensures !fails ==> db == Created(old(db), input) && id !in old(db).schedules && id in db.schedules
      ensures !fails ==> r == if readFails then None else Some(db.schedules[id])
    {
      if fails {
        return None, 0;
      }
      var n := db.lastSchedule + 1;
      db := db.(lastSchedule := n, schedules := db.schedules[n := NewSchedule(input)]);
      id := n;
      r := GetSchedule(n, readFails);
    }

    method GetSchedule(id: nat, fails: bool) returns (r: Option<Schedule>)
      ensures r == if !fails && id in db.schedules then Some(db.schedules[id]) else None
    {
      r := if !fails && id in db.schedules then Some(db.schedules[id]) else None;
    }

    method ListSchedules(fails: bool) returns (r: Option<seq<nat>>)
      requires Consistent(db)
      ensures fails <==> r == None
      ensures r.Some? ==> ListsAll(db, r.value)
    {
      if fails {
        return None;
      }
      var on: seq<nat> := [];
      var off: seq<nat> := [];
      var id := db.lastSchedule;
      while id > 0
        invariant id <= db.lastSchedule
        invariant forall k :: k in on <==> k in db.schedules && id < k && db.schedules[k].enabled
        invariant forall k :: k in off <==> k in db.schedules && id < k && !db.schedules[k].enabled
        invariant forall i :: 0 <= i < |on| ==> on[i] > id
        invariant forall i :: 0 <= i < |off| ==> off[i] > id
        invariant forall i, j :: 0 <= i < j < |on| ==> on[i] > on[j]
        invariant forall i, j :: 0 <= i < j < |off| ==> off[i] > off[j]
      {
        if id in db.schedules {
          if db.schedules[id].enabled {
            on := on + [id];
          } else {
            off := off + [id];
          }
        }
        id := id - 1;
      }
      r := Some(on + off);
    }

    method SetScheduleEnabled(id: nat, on: bool, fails: bool) returns (ok: bool)
      requires Consistent(db)
      modifies this
      ensures Consistent(db)
      ensures ok == (!fails && id in old(db).schedules)
      ensures db == if fails then old(db) else Enabled(old(db), id, on)
    {
      if fails || id !in db.schedules {
        return false;
      }
      db := db.(schedules := db.schedules[id := db.schedules[id].(enabled := on)]);
      ok := true;
    }

    method DeleteSchedule(id: nat, fails: bool) returns (ok: bool)
      requires Consistent(db)
      modifies this
      ensures Consistent(db) && db.runs.Keys == old(db).runs.Keys
      ensures ok == (!fails && id in old(db).schedules)
      ensures db == if fails then old(db) else Deleted(old(db), id)
    {
      if fails || id !in db.schedules {
        return false;
      }
      db := db.(schedules := db.schedules - {id}, runs := map r | r in db.runs :: Unlinked(db.runs[r], id));
      ok := true;
    }

    method UpdateNextRun(id: nat, at: string, fails: bool)
      requires Consistent(db)
      modifies this
      ensures Consistent(db)
      ensures db == if fails then old(db) else WithNextRun(old(db), id, at)
    {
      if !fails && id in db.schedules {
        db := db.(schedules := db.schedules[id := db.schedules[id].(nextRun := Some(at))]);
      }
    }

    method MarkScheduleRun(id: nat, status: string, message: string, at: string, fails: bool)
      requires Consistent(db)
      modifies this
      ensures Consistent(db)
      ensures db == if fails then old(db) else Marked(old(db), id, status, message, at)
    {
      if !fails && id in db.schedules {
        db := db.(schedules := db.schedules[id :=
          db.schedules[id].(lastRun := Some(at), lastStatus := status, lastMessage := message)]);
      }
    }

    // The insert, and LastInsertId, which can fail on its own.
    method StartRun(schedule: Option<nat>, app: string, services: seq<string>, fails: bool, idFails: bool)
      returns (r: Option<nat>)
      requires Consistent(db)
      modifies this
      ensures Consistent(db)
      ensures fails || !MayStart(old(db), schedule) ==> r == None && db == old(db)
      ensures !fails && MayStart(old(db), schedule) ==>
        db == Started(old(db), schedule, app, services) && r == if idFails then None else Some(old(db).lastRun + 1)
      ensures r.Some? ==> r.value !in old(db).runs
    {
      if fails || (schedule.Some? && schedule.value !in db.schedules) {
        return None;
      }
      var id := db.lastRun + 1;
      db := db.(lastRun := id, runs := db.runs[id := Run(schedule, app, JoinServices(services), Running, "", None)]);
      r := if idFails then None else Some(id);
    }

    method FinishRun(id: nat, status: Status, output: string, at: string, fails: bool) returns (ok: bool)
      requires Consistent(db)
      modifies this
      ensures Consistent(db)
      ensures ok == (!fails && id in old(db).runs)
      ensures db == if fails then old(db) else Finished(old(db), id, status, output, at)
    {
      if fails || id !in db.runs {
        return false;
      }
      db := db.(runs := db.runs[id := db.runs[id].(status := status, output := output, finished := Some(at))]);
      ok := true;
    }
  }
}
