// What the statements of the scheduler write, column by column, and what the
// texts it hands to the cron library mean there.
module ScheduleLaws {
  import opened Text
  import opened Names
  import opened Registry
  import opened ScheduleStore

  // --------------------------------------------------------------- one schedule

  // Only schedule `id` may differ, and no run.
  ghost predicate OnlySchedule(a: Db, b: Db, id: nat)
  {
    && b.runs == a.runs && b.lastRun == a.lastRun
    && b.schedules.Keys - {id} == a.schedules.Keys - {id}
    && forall k :: k in a.schedules && k != id ==> k in b.schedules && b.schedules[k] == a.schedules[k]
  }

  // CreateSchedule stores every field of the input under the next id, with no
  // run yet, and the service list reads back.
  lemma CreatedRow(db: Db, input: ScheduleInput)
    ensures var b, id := Created(db, input), db.lastSchedule + 1;
      && OnlySchedule(db, b, id) && b.lastSchedule == id && id in b.schedules
      && var c := b.schedules[id];
      && c.app == input.app && c.cron == input.cron && c.zone == input.zone
      && c.keepDays == input.keepDays && c.keepCount == input.keepCount && c.enabled == input.enabled
      && c.lastRun == None && c.nextRun == None && c.lastStatus == "" && c.lastMessage == ""
      && (Storable(input.services) ==> ServicesOf(c.services) == input.services)
  {
    StoredListReadsBackIff(input.services);
  }

  // Pausing and resuming change one flag.
  lemma EnabledRow(db: Db, id: nat, on: bool)
    requires id in db.schedules
    ensures var b := Enabled(db, id, on);
      && OnlySchedule(db, b, id) && b.lastSchedule == db.lastSchedule && id in b.schedules
      && b.schedules[id].enabled == on
      && b.schedules[id].(enabled := true) == db.schedules[id].(enabled := true)
  {
  }

  // Deleting takes the row and nulls its links; every run stays, with its
  // status, output and end.
  lemma DeletedRow(db: Db, id: nat)
    requires id in db.schedules
    ensures var b := Deleted(db, id);
      && id !in b.schedules && b.schedules.Keys == db.schedules.Keys - {id}
      && (forall k :: k in b.schedules ==> b.schedules[k] == db.schedules[k])
      && b.runs.Keys == db.runs.Keys && b.lastRun == db.lastRun && b.lastSchedule == db.lastSchedule
      && forall r :: r in db.runs ==>
           && b.runs[r].schedule == (if db.runs[r].schedule == Some(id) then None else db.runs[r].schedule)
           && b.runs[r].app == db.runs[r].app && b.runs[r].services == db.runs[r].services
           && b.runs[r].status == db.runs[r].status && b.runs[r].output == db.runs[r].output
           && b.runs[r].finished == db.runs[r].finished
  {
  }

  lemma NextRunRow(db: Db, id: nat, at: string)
    requires id in db.schedules
    ensures var b := WithNextRun(db, id, at);
      && OnlySchedule(db, b, id) && b.lastSchedule == db.lastSchedule && id in b.schedules
      && b.schedules[id].nextRun == Some(at) && b.schedules[id].(nextRun := None) == db.schedules[id].(nextRun := None)
  {
  }

  // A listing shows the enabled schedules first, and the newest first among
  // those and among the others.
  lemma ListingOrder(db: Db, ids: seq<nat>, i: nat, j: nat)
    requires ListsAll(db, ids) && i < j < |ids|
    ensures ids[i] in db.schedules && ids[j] in db.schedules
    ensures db.schedules[ids[j]].enabled ==> db.schedules[ids[i]].enabled
    ensures db.schedules[ids[i]].enabled == db.schedules[ids[j]].enabled ==> ids[i] > ids[j]
  {
    assert ids[i] in ids && ids[j] in ids;
  }

  // The text a run leaves: its log, and the error on a line of its own.
  predicate TextOf(text: string, success: bool, log: string, error: string)
  {
    text == if success then log else if log == "" then error else log + "\n" + error
  }

  // ------------------------------------------------------------- a run, recorded

  // One run more than before: for what was asked, ended as a success exactly
  // when the backup returned no error, with its text; still running when the
  // end could not be written.
  ghost predicate RunRecorded(
      a: Db, b: Db, link: Option<nat>, app: string, services: seq<string>, success: bool, log: string, error: string,
      at: string, finishFails: bool)
  {
    var run := a.lastRun + 1;
    && b.lastRun == run && b.runs.Keys == a.runs.Keys + {run}
    && (forall r :: r in a.runs && r != run ==> b.runs[r] == a.runs[r])
    && var row := b.runs[run];
    && row.schedule == link && row.app == app && (Storable(services) ==> ServicesOf(row.services) == services)
    && if finishFails then row.status == Running && row.finished == None && row.output == ""
       else
         && row.status == (if success then Success else Failed) && row.finished == Some(at)
         && exists text :: TextOf(text, success, log, error) && row.output == TrimSpace(text)
  }

  // The schedule shows its last run: when, how it ended, and the text, trimmed
  // and cut at 300 characters.
  ghost predicate ScheduleMarked(
      a: Db, b: Db, id: nat, success: bool, log: string, error: string, at: string, markFails: bool)
  {
    && b.schedules.Keys == a.schedules.Keys && b.lastSchedule == a.lastSchedule
    && (forall k :: k in a.schedules && (k != id || markFails) ==> b.schedules[k] == a.schedules[k])
    && (!markFails ==>
          && id in a.schedules
          && var c, c0 := b.schedules[id], a.schedules[id];
          && c == c0.(lastRun := c.lastRun, lastStatus := c.lastStatus, lastMessage := c.lastMessage)
          && c.lastRun == Some(at) && c.lastStatus == (if success then "success" else "failed")
          && exists text :: TextOf(text, success, log, error) && Shortened(c.lastMessage, TrimSpace(text)))
  }

  predicate Shortened(brief: string, text: string)
  {
    brief == if |text| <= 300 then text else text[..300] + "..."
  }

  // --------------------------------------------------------------- the cron spec

  function Field(s: string): string
  {
    if s == "" || s[0] == ' ' then "" else [s[0]] + Field(s[1..])
  }

  // How the cron library reads a spec: an optional zone in front, up to the
  // first space, then the expression.
  function ReadSpec(spec: string, home: string): (string, string)
  {
    if HasPrefix(spec, "CRON_TZ=") then
      var zone := Field(spec[8..]);
      (zone, TrimSpace(spec[8 + FieldLength(spec[8..])..]))
    else if HasPrefix(spec, "TZ=") then (Field(spec[3..]), TrimSpace(spec[3 + FieldLength(spec[3..])..]))
    else (home, TrimSpace(spec))
  }

  function FieldLength(s: string): (n: nat)
    ensures n <= |s|
  {
    if s == "" || s[0] == ' ' then 0 else 1 + FieldLength(s[1..])
  }

  lemma {:induction false} FieldOfZone(zone: string, rest: string)
    requires ' ' !in zone
    ensures Field(zone + " " + rest) == zone && FieldLength(zone + " " + rest) == |zone|
  {
    var s := zone + " " + rest;
    if zone != "" {
      assert s[1..] == zone[1..] + " " + rest;
      FieldOfZone(zone[1..], rest);
    } else {
      assert s[0] == ' ';
    }
  }

  lemma SpecReadsBack(zone: string, cron: string, home: string)
    requires ' ' !in zone && Trimmed(cron)
    ensures ReadSpec("CRON_TZ=" + zone + " " + cron, home) == (zone, cron)
    ensures !HasPrefix(cron, "CRON_TZ=") && !HasPrefix(cron, "TZ=") ==> ReadSpec(cron, home) == (home, cron)
  {
    var spec := "CRON_TZ=" + zone + " " + cron;
    var tail := zone + " " + cron;
    assert spec[..8] == "CRON_TZ=" && spec[8..] == tail;
    FieldOfZone(zone, cron);
    assert spec[8 + |zone|..] == " " + cron;
    TrimFixes(cron);
    SpaceIsTrimmed(cron);
  }

  lemma SpaceIsTrimmed(s: string)
    requires Trimmed(s)
    ensures TrimSpace(" " + s) == s
  {
    assert (" " + s)[1..] == s;
    TrimFixes(s);
  }
}
