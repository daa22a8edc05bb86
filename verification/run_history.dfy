// The run history as a state machine: cron-fired, run-now and manual workers
// interleave, step by step, with edits of the schedules.
module RunHistory {
  import opened Text
  import opened Names
  import opened Registry
  import opened ScheduleStore

  // One statement of a worker is one step. A worker that has ended keeps its
  // place, so that rows can be traced back to their workers.
  datatype Phase =
    | Loaded                                    // has its schedule, or is manual
    | Refused                                   // StartRun failed
    | Working                                   // the backup is under way
    | Judged(status: Status, output: string)    // the backup is over
    | Closed(wrote: bool, status: Status, output: string)
    | Ended(wrote: bool, status: Status, output: string)
    | Dead                                      // gone first, or never told the id of its row

  datatype Worker = Worker(link: Option<nat>, app: string, services: seq<string>, run: Option<nat>, phase: Phase)

  datatype Sys = Sys(db: Db, workers: seq<Worker>)

  const START: Sys := Sys(NO_ROWS, [])

  datatype Action =
    | Create(input: ScheduleInput)
    | SetEnabled(id: nat, on: bool)
    | Delete(id: nat)
    | NextRun(id: nat, at: string)
    | Spawn(id: nat)                            // a cron entry fires, or RunNow
    | SpawnManual(app: string, services: seq<string>)
    | Start(w: nat, fails: bool)
    | Work(w: nat, status: Status, output: string)
    | Finish(w: nat, at: string, fails: bool)
    | Mark(w: nat, brief: string, at: string, fails: bool)
    | Die(w: nat)

  function StatusText(s: Status): string
  {
    match s
    case Running => "running"
    case Success => "success"
    case Failed => "failed"
  }

  // One step; an event that does not apply changes nothing.
  function Step(s: Sys, e: Action): Sys
  {
    match e
    case Create(input) => s.(db := Created(s.db, input))
    case SetEnabled(id, on) => s.(db := Enabled(s.db, id, on))
    case Delete(id) => s.(db := Deleted(s.db, id))
    case NextRun(id, at) => s.(db := WithNextRun(s.db, id, at))
    case Spawn(id) =>
      if id in s.db.schedules then
        var c := s.db.schedules[id];
        s.(workers := s.workers + [Worker(Some(id), c.app, ServicesOf(c.services), None, Loaded)])
      else s
    case SpawnManual(app, services) => s.(workers := s.workers + [Worker(None, app, services, None, Loaded)])
    case Start(w, fails) => if w < |s.workers| then StartStep(s, w, s.workers[w], fails) else s
    case Work(w, status, output) =>
      if w < |s.workers| && s.workers[w].phase.Working? && status != Running then
        s.(workers := s.workers[w := s.workers[w].(phase := Judged(status, output))])
      else s
    case Finish(w, at, fails) => if w < |s.workers| then FinishStep(s, w, s.workers[w], at, fails) else s
    case Mark(w, brief, at, fails) => if w < |s.workers| then MarkStep(s, w, s.workers[w], brief, at, fails) else s
    case Die(w) => if w < |s.workers| then DieStep(s, w, s.workers[w]) else s
  }

  function StartStep(s: Sys, w: nat, k: Worker, fails: bool): Sys
    requires w < |s.workers|
  {
    if !k.phase.Loaded? then s
    else if fails || !MayStart(s.db, k.link) then s.(workers := s.workers[w := k.(phase := Refused)])
    else Sys(Started(s.db, k.link, k.app, k.services),
      s.workers[w := k.(phase := Working, run := Some(s.db.lastRun + 1))])
  }

  function FinishStep(s: Sys, w: nat, k: Worker, at: string, fails: bool): Sys
    requires w < |s.workers|
  {
    if !k.phase.Judged? || k.run == None then s
    else
      var wrote := !fails && k.run.value in s.db.runs;
      var closed := if k.link.Some? then Closed(wrote, k.phase.status, k.phase.output)
        else Ended(wrote, k.phase.status, k.phase.output);
      Sys(if wrote then Finished(s.db, k.run.value, k.phase.status, k.phase.output, at) else s.db,
        s.workers[w := k.(phase := closed)])
  }

  function MarkStep(s: Sys, w: nat, k: Worker, brief: string, at: string, fails: bool): Sys
    requires w < |s.workers|
  {
    if !k.phase.Closed? || k.link == None then s
    else
      Sys(if fails then s.db else Marked(s.db, k.link.value, StatusText(k.phase.status), brief, at),
        s.workers[w := k.(phase := Ended(k.phase.wrote, k.phase.status, k.phase.output))])
  }

  function DieStep(s: Sys, w: nat, k: Worker): Sys
    requires w < |s.workers|
  {
    match k.phase
    case Loaded => s.(workers := s.workers[w := k.(phase := Dead)])
    case Working => s.(workers := s.workers[w := k.(phase := Dead)])
    case Judged(_, _) => s.(workers := s.workers[w := k.(phase := Dead)])
    case Closed(wrote, status, output) => s.(workers := s.workers[w := k.(phase := Ended(wrote, status, output))])
    case _ => s
  }

  function Steps(s: Sys, es: seq<Action>): Sys
    decreases |es|
  {
    if es == [] then s else Steps(Step(s, es[0]), es[1..])
  }

  // --------------------------------------------------------------- invariant

  predicate InFlight(p: Phase) { p.Working? || p.Judged? }

  predicate Unwritten(p: Phase)
  {
    InFlight(p) || p.Dead? || ((p.Closed? || p.Ended?) && !p.wrote)
  }

  predicate RowSays(p: Phase, r: Run)
  {
    (p.Closed? || p.Ended?) && r.status == p.status && r.output == p.output && r.finished.Some?
  }

  // A worker and its row.
  predicate RowFits(k: Worker, r: Run)
  {
    && r.app == k.app && r.services == JoinServices(k.services)
    && (r.schedule == k.link || r.schedule == None)
    && (Unwritten(k.phase) ==> r.status == Running && r.output == "" && r.finished == None)
    && (Unwritten(k.phase) || RowSays(k.phase, r))
  }

  predicate GoodWorker(db: Db, k: Worker)
  {
    && (k.phase.Loaded? || k.phase.Refused? ==> k.run == None)
    && (InFlight(k.phase) || k.phase.Closed? || k.phase.Ended? ==> k.run.Some?)
    && (k.phase.Judged? || k.phase.Closed? || k.phase.Ended? ==> k.phase.status != Running)
    && (k.run.Some? ==> k.run.value in db.runs && RowFits(k, db.runs[k.run.value]))
    && (k.link.Some? ==> 1 <= k.link.value <= db.lastSchedule)
    && (k.link.Some? && k.link.value in db.schedules ==>
          var c := db.schedules[k.link.value]; k.app == c.app && k.services == ServicesOf(c.services))
  }

  predicate OwnsRun(s: Sys, w: int, id: int)
  {
    0 <= w < |s.workers| && 0 <= id && s.workers[w].run == Some(id)
  }

  ghost predicate Accounted(s: Sys)
  {
    && Consistent(s.db)
    && (forall w :: 0 <= w < |s.workers| ==> GoodWorker(s.db, s.workers[w]))
    && (forall id :: id in s.db.runs ==> exists w :: OwnsRun(s, w, id))
    && (forall v, w, id :: OwnsRun(s, v, id) && OwnsRun(s, w, id) ==> v == w)
  }

  // Edits of the schedules, and marks, leave every worker's row alone but for
  // the link.
  ghost predicate KeepsRows(a: Db, b: Db)
  {
    && a.lastSchedule <= b.lastSchedule && a.lastRun == b.lastRun && a.runs.Keys == b.runs.Keys
    && (forall id :: id in a.runs ==> b.runs[id] == a.runs[id] || b.runs[id] == a.runs[id].(schedule := None))
    && (forall id :: id in b.schedules && id <= a.lastSchedule ==>
      id in a.schedules && SameSchedule(a.schedules[id], b.schedules[id]))
  }

  // The columns no statement updates.
  predicate SameSchedule(a: Schedule, b: Schedule)
  {
    a.app == b.app && a.services == b.services && a.cron == b.cron && a.zone == b.zone
    && a.keepDays == b.keepDays && a.keepCount == b.keepCount
  }

  lemma EditKeepsAccounts(s: Sys, db: Db)
    requires Accounted(s) && Consistent(db) && KeepsRows(s.db, db)
    ensures Accounted(s.(db := db))
  {
    var t := s.(db := db);
    forall w | 0 <= w < |t.workers|
      ensures GoodWorker(db, t.workers[w])
    {
      assert GoodWorker(s.db, s.workers[w]);
    }
    forall id | id in db.runs
      ensures exists w :: OwnsRun(t, w, id)
    {
      var w :| OwnsRun(s, w, id);
      assert OwnsRun(t, w, id);
    }
    forall v, w, id | OwnsRun(t, v, id) && OwnsRun(t, w, id)
      ensures v == w
    {
      assert OwnsRun(s, v, id) && OwnsRun(s, w, id);
    }
  }

  // A worker changes its phase only.
  lemma PhaseKeepsAccounts(s: Sys, w: nat, phase: Phase)
    requires Accounted(s) && w < |s.workers| && GoodWorker(s.db, s.workers[w].(phase := phase))
    ensures Accounted(s.(workers := s.workers[w := s.workers[w].(phase := phase)]))
  {
    var t := s.(workers := s.workers[w := s.workers[w].(phase := phase)]);
    forall id | id in t.db.runs
      ensures exists v :: OwnsRun(t, v, id)
    {
      var v :| OwnsRun(s, v, id);
      assert OwnsRun(t, v, id);
    }
    forall u, v, id | OwnsRun(t, u, id) && OwnsRun(t, v, id)
      ensures u == v
    {
      assert OwnsRun(s, u, id) && OwnsRun(s, v, id);
    }
  }

  lemma SpawnKeepsAccounts(s: Sys, k: Worker)
    requires Accounted(s) && k.run == None && GoodWorker(s.db, k)
    ensures Accounted(s.(workers := s.workers + [k]))
  {
    var t := s.(workers := s.workers + [k]);
    forall id | id in t.db.runs
      ensures exists v :: OwnsRun(t, v, id)
    {
      var v :| OwnsRun(s, v, id);
      assert OwnsRun(t, v, id);
    }
    forall u, v, id | OwnsRun(t, u, id) && OwnsRun(t, v, id)
      ensures u == v
    {
      assert OwnsRun(s, u, id) && OwnsRun(s, v, id);
    }
  }

  lemma StartKeepsAccounts(s: Sys, w: nat)
    requires Accounted(s) && w < |s.workers| && s.workers[w].phase.Loaded? && MayStart(s.db, s.workers[w].link)
    ensures Accounted(StartStep(s, w, s.workers[w], false))
  {
    var k, n := s.workers[w], s.db.lastRun + 1;
    var t := StartStep(s, w, k, false);
    assert GoodWorker(s.db, k);
    forall v | 0 <= v < |t.workers|
      ensures GoodWorker(t.db, t.workers[v])
    {
      assert GoodWorker(s.db, s.workers[v]);
    }
    forall id | id in t.db.runs
      ensures exists v :: OwnsRun(t, v, id)
    {
      if id == n {
        assert OwnsRun(t, w, n);
      } else {
        var v :| OwnsRun(s, v, id);
        assert OwnsRun(t, v, id);
      }
    }
    forall u, v, id | OwnsRun(t, u, id) && OwnsRun(t, v, id)
      ensures u == v
    {
      OwnedIsOld(s, w, n, u, id);
      OwnedIsOld(s, w, n, v, id);
    }
  }

  lemma OwnedIsOld(s: Sys, w: nat, n: nat, v: nat, id: nat)
    requires Accounted(s) && w < |s.workers| && n == s.db.lastRun + 1
    requires OwnsRun(s.(workers := s.workers[w := s.workers[w].(phase := Working, run := Some(n))]), v, id)
    ensures if id == n then v == w else OwnsRun(s, v, id)
  {
    assert GoodWorker(s.db, s.workers[v]);
  }

  lemma FinishKeepsAccounts(s: Sys, w: nat, at: string)
    requires Accounted(s) && w < |s.workers| && s.workers[w].phase.Judged? && s.workers[w].run.Some?
    ensures Accounted(FinishStep(s, w, s.workers[w], at, false))
  {
    var k := s.workers[w];
    var t := FinishStep(s, w, k, at, false);
    assert GoodWorker(s.db, k);
    var run := k.run.value;
    assert OwnsRun(s, w, run);
    forall v | 0 <= v < |t.workers|
      ensures GoodWorker(t.db, t.workers[v])
    {
      assert GoodWorker(s.db, s.workers[v]);
      if v != w {
        assert OwnsRun(s, v, run) <==> s.workers[v].run == Some(run);
      }
    }
    forall id | id in t.db.runs
      ensures exists v :: OwnsRun(t, v, id)
    {
      var v :| OwnsRun(s, v, id);
      assert OwnsRun(t, v, id);
    }
    forall u, v, id | OwnsRun(t, u, id) && OwnsRun(t, v, id)
      ensures u == v
    {
      assert OwnsRun(s, u, id) && OwnsRun(s, v, id);
    }
  }

  lemma EditStepKeepsAccounts(s: Sys, e: Action)
    requires Accounted(s) && (e.Create? || e.SetEnabled? || e.Delete? || e.NextRun?)
    ensures Accounted(Step(s, e))
  {
    EditKeepsAccounts(s, Step(s, e).db);
  }

  lemma StepKeepsAccounts(s: Sys, e: Action)
    requires Accounted(s)
    ensures Accounted(Step(s, e))
  {
    match e
    case Create(_) => EditStepKeepsAccounts(s, e);
    case SetEnabled(_, _) => EditStepKeepsAccounts(s, e);
    case Delete(_) => EditStepKeepsAccounts(s, e);
    case NextRun(_, _) => EditStepKeepsAccounts(s, e);
    case Spawn(id) =>
      if id in s.db.schedules {
        var c := s.db.schedules[id];
        SpawnKeepsAccounts(s, Worker(Some(id), c.app, ServicesOf(c.services), None, Loaded));
      }
    case SpawnManual(app, services) => SpawnKeepsAccounts(s, Worker(None, app, services, None, Loaded));
    case Start(w, fails) =>
      if w < |s.workers| && s.workers[w].phase.Loaded? {
        if fails || !MayStart(s.db, s.workers[w].link) {
          PhaseKeepsAccounts(s, w, Refused);
        } else {
          StartKeepsAccounts(s, w);
        }
      }
    case Work(w, status, output) =>
      if w < |s.workers| && s.workers[w].phase.Working? && status != Running {
        PhaseKeepsAccounts(s, w, Judged(status, output));
      }
    case Finish(w, at, fails) => FinishStepKeepsAccounts(s, w, at, fails);
    case Mark(w, brief, at, fails) => MarkStepKeepsAccounts(s, w, brief, at, fails);
    case Die(w) =>
      if w < |s.workers| {
        DieStepKeepsAccounts(s, w);
      }
  }

  lemma FinishStepKeepsAccounts(s: Sys, w: nat, at: string, fails: bool)
    requires Accounted(s)
    ensures Accounted(Step(s, Finish(w, at, fails)))
  {
    if w < |s.workers| && s.workers[w].phase.Judged? {
      var k := s.workers[w];
      assert GoodWorker(s.db, k);
      if fails {
        PhaseKeepsAccounts(s, w, if k.link.Some? then Closed(false, k.phase.status, k.phase.output)
          else Ended(false, k.phase.status, k.phase.output));
      } else {
        FinishKeepsAccounts(s, w, at);
      }
    }
  }

  lemma MarkedKeepsRows(db: Db, id: nat, status: string, message: string, at: string)
    requires Consistent(db)
    ensures Consistent(Marked(db, id, status, message, at)) && KeepsRows(db, Marked(db, id, status, message, at))
  {
  }

  lemma MarkStepKeepsAccounts(s: Sys, w: nat, brief: string, at: string, fails: bool)
    requires Accounted(s)
    ensures Accounted(Step(s, Mark(w, brief, at, fails)))
  {
    if w < |s.workers| && s.workers[w].phase.Closed? && s.workers[w].link.Some? {
      var k := s.workers[w];
      var ended := Ended(k.phase.wrote, k.phase.status, k.phase.output);
      assert GoodWorker(s.db, k);
      PhaseKeepsAccounts(s, w, ended);
      var mid := s.(workers := s.workers[w := k.(phase := ended)]);
      if !fails {
        MarkedKeepsRows(s.db, k.link.value, StatusText(k.phase.status), brief, at);
        EditKeepsAccounts(mid, Marked(s.db, k.link.value, StatusText(k.phase.status), brief, at));
      }
    }
  }

  lemma DieStepKeepsAccounts(s: Sys, w: nat)
    requires Accounted(s) && w < |s.workers|
    ensures Accounted(DieStep(s, w, s.workers[w]))
  {
    var k := s.workers[w];
    assert GoodWorker(s.db, k);
    var t := DieStep(s, w, k);
    if t != s {
      PhaseKeepsAccounts(s, w, t.workers[w].phase);
    }
  }

  lemma {:induction false} StepsKeepAccounts(s: Sys, es: seq<Action>)
    requires Accounted(s)
    ensures Accounted(Steps(s, es))
    decreases |es|
  {
    if es != [] {
      StepKeepsAccounts(s, es[0]);
      StepsKeepAccounts(Step(s, es[0]), es[1..]);
    }
  }

  // ------------------------------------------------------------- consequences

  // In every reachable state: a row is still running exactly when its one
  // worker is in flight, failed to write the end, or died.
  lemma RunningIff(es: seq<Action>, id: nat, w: nat)
    requires var s := Steps(START, es); id in s.db.runs && OwnsRun(s, w, id)
    ensures var s := Steps(START, es);
      && (s.db.runs[id].status == Running <==> Unwritten(s.workers[w].phase))
      && (forall v :: OwnsRun(s, v, id) ==> v == w)
      && s.db.runs[id].app == s.workers[w].app && s.db.runs[id].services == JoinServices(s.workers[w].services)
  {
    var s := Steps(START, es);
    StepsKeepAccounts(START, es);
    assert GoodWorker(s.db, s.workers[w]);
  }

  lemma EveryRunHasItsWorker(es: seq<Action>, id: nat)
    requires id in Steps(START, es).db.runs
    ensures exists w :: OwnsRun(Steps(START, es), w, id)
  {
    StepsKeepAccounts(START, es);
  }

  // The one step that ends a run.
  predicate EndsRun(s: Sys, e: Action, id: nat)
  {
    e.Finish? && !e.fails && OwnsRun(s, e.w, id) && s.workers[e.w].phase.Judged?
  }

  predicate Ends(a: Run, b: Run, p: Phase, at: string)
    requires p.Judged?
  {
    a.status == Running && b.status == p.status != Running && b.output == p.output && b.finished == Some(at)
  }

  // One step on one row: it stays, and only its own worker's Finish moves its
  // status, from running to the status the worker judged. A delete may null
  // the link.
  lemma StepOnRow(s: Sys, e: Action, id: nat)
    requires Accounted(s) && id in s.db.runs
    ensures id in Step(s, e).db.runs
    ensures var a, b := s.db.runs[id], Step(s, e).db.runs[id];
      && a.app == b.app && a.services == b.services
      && (b.schedule == a.schedule || (b.schedule == None && e.Delete? && a.schedule == Some(e.id)))
      && (EndsRun(s, e, id) ==> Ends(a, b, s.workers[e.w].phase, e.at))
      && (!EndsRun(s, e, id) ==> b.status == a.status && b.output == a.output && b.finished == a.finished)
  {
    if e.Finish? {
      if e.w < |s.workers| {
        assert GoodWorker(s.db, s.workers[e.w]);
      }
    } else {
      OtherStepOnRow(s, e, id);
    }
  }

  lemma OtherStepOnRow(s: Sys, e: Action, id: nat)
    requires Accounted(s) && id in s.db.runs && !e.Finish?
    ensures id in Step(s, e).db.runs
    ensures var a, b := s.db.runs[id], Step(s, e).db.runs[id];
      b == a || (b == a.(schedule := None) && e.Delete? && a.schedule == Some(e.id))
  {
    assert id <= s.db.lastRun;
  }

  // Whatever follows, a run is never lost, and one that succeeded or failed
  // stays as it is.
  lemma {:induction false} EndedRunsAreFinal(s: Sys, es: seq<Action>, id: nat)
    requires Accounted(s) && id in s.db.runs
    ensures id in Steps(s, es).db.runs
    ensures s.db.runs[id].status != Running ==>
      Steps(s, es).db.runs[id].(schedule := None) == s.db.runs[id].(schedule := None)
    ensures Steps(s, es).db.runs[id].schedule in {s.db.runs[id].schedule, None}
    decreases |es|
  {
    if es != [] {
      StepKeepsAccounts(s, es[0]);
      StepOnRow(s, es[0], id);
      EndedRunsAreFinal(Step(s, es[0]), es[1..], id);
    }
  }

  // ------------------------------------------------------ deleted schedules

  lemma StepOnSchedule(s: Sys, e: Action, id: nat)
    requires Accounted(s) && id <= s.db.lastSchedule
    ensures s.db.lastSchedule <= Step(s, e).db.lastSchedule
    ensures id in Step(s, e).db.schedules ==>
      id in s.db.schedules && SameSchedule(s.db.schedules[id], Step(s, e).db.schedules[id])
  {
  }

  // Ids are never reused, and an id never comes to mean another schedule.
  lemma {:induction false} IdsAreNeverReused(s: Sys, es: seq<Action>, id: nat)
    requires Accounted(s) && id <= s.db.lastSchedule && id in Steps(s, es).db.schedules
    ensures id in s.db.schedules && SameSchedule(s.db.schedules[id], Steps(s, es).db.schedules[id])
    decreases |es|
  {
    if es != [] {
      StepKeepsAccounts(s, es[0]);
      StepOnSchedule(s, es[0], id);
      IdsAreNeverReused(Step(s, es[0]), es[1..], id);
    }
  }

  // After a delete nothing starts for that schedule any more: a stale job
  // finds no schedule, and a worker that had already loaded it is refused.
  ghost predicate NothingNew(s: Sys, t: Sys, id: nat)
  {
    forall w, run :: OwnsRun(t, w, run) && t.workers[w].link == Some(id) ==> run in s.db.runs
  }

  lemma StepStartsNothing(s0: Sys, s: Sys, e: Action, id: nat)
    requires Accounted(s) && NothingNew(s0, s, id) && id !in s.db.schedules && id <= s.db.lastSchedule
    ensures NothingNew(s0, Step(s, e), id) && id !in Step(s, e).db.schedules
    ensures e == Spawn(id) ==> Step(s, e) == s
  {
    var t := Step(s, e);
    StepOnSchedule(s, e, id);
    forall w, run | OwnsRun(t, w, run) && t.workers[w].link == Some(id)
      ensures run in s0.db.runs
    {
      LinkedRunIsOld(s, e, id, w, run);
    }
  }

  lemma LinkedRunIsOld(s: Sys, e: Action, id: nat, w: int, run: int)
    requires Accounted(s) && id !in s.db.schedules
    requires OwnsRun(Step(s, e), w, run) && Step(s, e).workers[w].link == Some(id)
    ensures OwnsRun(s, w, run) && s.workers[w].link == Some(id)
  {
  }

  lemma {:induction false} DeletedScheduleStartsNothing(s0: Sys, s: Sys, es: seq<Action>, id: nat)
    requires Accounted(s) && NothingNew(s0, s, id) && id !in s.db.schedules && id <= s.db.lastSchedule
    ensures NothingNew(s0, Steps(s, es), id) && id !in Steps(s, es).db.schedules
    decreases |es|
  {
    if es != [] {
      StepKeepsAccounts(s, es[0]);
      StepStartsNothing(s0, s, es[0], id);
      DeletedScheduleStartsNothing(s0, Step(s, es[0]), es[1..], id);
    }
  }

  // From any reachable state in which the schedule has been deleted: whatever
  // follows, every run of that schedule had already begun.
  lemma StaleJobsRunNothing(before: seq<Action>, after: seq<Action>, id: nat, w: nat, run: nat)
    requires id in Steps(START, before).db.schedules
    requires var s := Steps(Step(Steps(START, before), Delete(id)), after);
      OwnsRun(s, w, run) && s.workers[w].link == Some(id)
    ensures run in Steps(START, before).db.runs
  {
    var s0 := Steps(START, before);
    StepsKeepAccounts(START, before);
    var s := Step(s0, Delete(id));
    StepKeepsAccounts(s0, Delete(id));
    forall v, r | OwnsRun(s, v, r) && s.workers[v].link == Some(id)
      ensures r in s.db.runs
    {
      assert GoodWorker(s.db, s.workers[v]);
    }
    DeletedScheduleStartsNothing(s, s, after, id);
    assert s.db.runs.Keys == s0.db.runs.Keys;
  }
}
