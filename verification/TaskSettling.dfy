/** What one event on a task does to its row and its application, and when an application is left with nothing to
    wait for without having been settled: said of the rows alone. */
module TaskSettling {
  import opened Options
  import opened Pipeline
  import opened PipelineGuarantees
  import FanOutOutcome

  predicate IsLive(task: Task) { task.status == Queued || task.status == InProgress }

  predicate HasTask(tasks: Tasks, a: AppId) {
    exists t | t in tasks :: tasks[t].app == a
  }

  predicate HasLiveTask(tasks: Tasks, a: AppId) {
    exists t | t in tasks :: tasks[t].app == a && IsLive(tasks[t])
  }

  predicate AllAre(tasks: Tasks, a: AppId, s: TaskStatus) {
    forall t | t in tasks && tasks[t].app == a :: tasks[t].status == s
  }

  /** The status of an application whose tasks have all ended. */
  predicate Settles(tasks: Tasks, a: AppId, s: AppStatus) {
    && (s == Completed <==> AllAre(tasks, a, Done)) && (s == Broken <==> AllAre(tasks, a, Failed))
    && (s == Partial <==> !AllAre(tasks, a, Done) && !AllAre(tasks, a, Failed))
  }

  /** No other task that did not fail has the path. */
  predicate PathFree(tasks: Tasks, t: TaskId, p: string) {
    forall u | u in tasks && u != t && tasks[u].path == p :: tasks[u].status == Failed
  }

  /** The task is in the state the event is about, and the path it then claims is free. */
  predicate TakesEffect(db: Db, t: TaskId, e: TaskEvent)
    requires t in db.tasks
  {
    match e
    case Claim => db.tasks[t].status == Queued
    case SpawnFailed => db.tasks[t].status == Queued
    case Unrunnable => db.tasks[t].status == Queued
    case Stale => db.tasks[t].status == InProgress
    case Fail => db.tasks[t].status == InProgress
    case Complete(path) => db.tasks[t].status == InProgress && PathFree(db.tasks, t, path)
    case Retry => db.tasks[t].status == Failed && PathFree(db.tasks, t, db.tasks[t].path)
  }

  /** The row of a task after an event that takes effect. */
  predicate RowFollows(was: Task, now: Task, e: TaskEvent, limit: nat) {
    && now.app == was.app && now.path == (if e.Complete? then e.path else was.path)
    && now.attempts == was.attempts + (if e == Claim || e == SpawnFailed then 1 else 0)
    && (now.status == Done <==> e.Complete?) && (now.status == InProgress <==> e == Claim)
    && (now.status == Failed <==>
          e == Fail || e == Unrunnable || (e == SpawnFailed && now.attempts >= limit) || (e == Stale && was.attempts >= limit))
  }

  lemma NoEffect(db: Db, t: TaskId, e: TaskEvent)
    requires Inv(db) && t in db.tasks && !TakesEffect(db, t, e)
    ensures Step(db, OnTask(t, e)) == db
  {
    var next := NextRow(db.tasks[t], e, db.limit);
    if next.Some? { IndexAfter(db, t, next.value); }
  }

  lemma Effect(db: Db, t: TaskId, e: TaskEvent) returns (row: Task)
    requires Inv(db) && t in db.tasks && TakesEffect(db, t, e)
    ensures RowFollows(db.tasks[t], row, e, db.limit) && row.app in db.apps
    ensures var tasks := db.tasks[t := row];
      Step(db, OnTask(t, e))
        == db.(tasks := tasks, apps := SetStatus(db.apps, row.app, NextAppStatus(tasks, row.app, e, db.apps[row.app].status)))
  {
    assert TaskOk(db, db.tasks[t]);
    row := NextRow(db.tasks[t], e, db.limit).value;
    IndexAfter(db, t, row);
  }

  /** A claim starts an application that is queued; any other event settles one that has no live task left, and
      leaves the others as they are. */
  predicate AppFollows(tasks: Tasks, a: AppId, e: TaskEvent, was: AppStatus, now: AppStatus) {
    if e == Claim then now == if was == Pending then Running else was
    else if HasLiveTask(tasks, a) then now == was
    else Settles(tasks, a, now)
  }

  /** An event on a task changes its row as it should, no other row, and no other application; its own application
      runs once a task is claimed, and is settled when no live task is left. */
  lemma TaskEventExactly(db: Db, t: TaskId, e: TaskEvent)
    requires Inv(db) && t in db.tasks
    ensures var after := Step(db, OnTask(t, e)); var a := db.tasks[t].app;
      && (!TakesEffect(db, t, e) ==> after == db)
      && after.tasks.Keys == db.tasks.Keys && after.apps.Keys == db.apps.Keys && after.jobs == db.jobs
      && (forall u | u in db.tasks && u != t :: after.tasks[u] == db.tasks[u])
      && (forall b | b in db.apps && b != a :: after.apps[b] == db.apps[b])
      && a in db.apps && after.apps[a].job == db.apps[a].job && after.apps[a].session == db.apps[a].session
    ensures TakesEffect(db, t, e) ==>
      var after := Step(db, OnTask(t, e)); var a := db.tasks[t].app;
      RowFollows(db.tasks[t], after.tasks[t], e, db.limit) && AppFollows(after.tasks, a, e, db.apps[a].status, after.apps[a].status)
  {
    assert TaskOk(db, db.tasks[t]);
    if TakesEffect(db, t, e) {
      var row := Effect(db, t, e);
      FollowsNext(db.tasks[t := row], row.app, e, db.apps[row.app].status, t);
    } else {
      NoEffect(db, t, e);
    }
  }

  lemma FollowsNext(tasks: Tasks, a: AppId, e: TaskEvent, was: AppStatus, t: TaskId)
    requires t in tasks && tasks[t].app == a && (e == Retry ==> IsLive(tasks[t]))
    ensures AppFollows(tasks, a, e, was, NextAppStatus(tasks, a, e, was))
  {
    SettledMeans(tasks, a, was, t);
  }

  lemma IndexAfter(db: Db, t: TaskId, row: Task)
    requires UniquePaths(db.tasks) && t in db.tasks
    ensures UniquePaths(db.tasks[t := row]) <==> row.status == Failed || PathFree(db.tasks, t, row.path)
  {
    var after := db.tasks[t := row];
    if UniquePaths(after) && row.status != Failed {
      forall u | u in db.tasks && u != t && db.tasks[u].path == row.path ensures db.tasks[u].status == Failed {
        assert after[u] == db.tasks[u] && after[t] == row;
      }
    }
  }

  lemma SettledMeans(tasks: Tasks, a: AppId, current: AppStatus, t: TaskId)
    requires t in tasks && tasks[t].app == a
    ensures var s := Aggregate(tasks, a, current);
      if HasLiveTask(tasks, a) then s == current else Settles(tasks, a, s)
  {
    var own := TasksOf(tasks, a);
    assert t in own;
    assert HasLiveTask(tasks, a) <==> exists u | u in own :: !Terminal(tasks[u].status);
    assert AllAre(tasks, a, Done) <==> forall u | u in own :: tasks[u].status == Done;
    assert AllAre(tasks, a, Failed) <==> forall u | u in own :: tasks[u].status == Failed;
  }

  // ----- applications with nothing left to wait for ------------------------------------------------------------

  /** Queued or running, with tasks but none of them live. */
  predicate Unsettled(db: Db, a: AppId) {
    a in db.apps && db.apps[a].status in {Pending, Running} && HasTask(db.tasks, a) && !HasLiveTask(db.tasks, a)
  }

  /** The deletion of its last live task, while others are left. */
  predicate DeletesLast(db: Db, e: Event, a: AppId) {
    && e.DeleteTask? && a in db.apps && db.apps[a].status in {Pending, Running}
    && e.task in db.tasks && db.tasks[e.task].app == a && IsLive(db.tasks[e.task])
    && (exists t | t in db.tasks && t != e.task :: db.tasks[t].app == a)
    && (forall t | t in db.tasks && t != e.task && db.tasks[t].app == a :: !IsLive(db.tasks[t]))
  }

  /** An overwriting apply of its job that evicts all its live tasks but not all its tasks. */
  predicate EvictsLast(db: Db, e: Event, a: AppId) {
    && e.Apply? && a in db.apps && db.apps[a].status in {Pending, Running} && MakesTasks(db, e.request)
    && (forall t | t in db.tasks && db.tasks[t].app == a && IsLive(db.tasks[t]) :: FanOutOutcome.Displaced(db, e.request, t))
    && (exists t | t in db.tasks :: db.tasks[t].app == a && !FanOutOutcome.Displaced(db, e.request, t))
  }

  predicate MakesTasks(db: Db, r: Request) {
    && r.job in db.jobs && FanOutOutcome.HasPaths(db, r) && Distinct(r.resolved.value)
    && (!FanOutOutcome.Collides(db.tasks, r.onDisk, r.resolved.value)
        || (r.overwrite && !FanOutOutcome.OthersTask(db, r.resolved.value, r.job) && !FanOutOutcome.OwnRunning(db, r.resolved.value, r.job)))
  }

  /** An application comes to be left unsettled exactly by such an event. */
  lemma UnsettledArises(db: Db, e: Event, a: AppId)
    requires Inv(db) && !Unsettled(db, a)
    ensures Unsettled(Step(db, e), a) <==> DeletesLast(db, e, a) || EvictsLast(db, e, a)
  {
    match e
    case OnTask(t, what) => if t in db.tasks { TaskEventExactly(db, t, what); TaskEventSettles(db, t, what, a); }
    case DeleteTask(t) => DeleteSettles(db, t, a);
    case Apply(r) => ApplySettles(db, r, a);
    case ParkApp(job, session) => ParkSettles(db, job, session, a);
    case RetryApp(b) => RetrySettles(db, b, a);
    case DrainJob(job, plan) => if PlanOk(db, job, plan) { DrainSettles(db, job, plan, a); }
    case CancelApps(job) => CancelSettles(db, job, a);
    case Sweep(aged) => SweepSettles(db, aged, a);
    case DeleteApp(b) => CascadeSettles(db, {b}, a);
    case OnJob(j, what) => if what == DeleteJob { CascadeSettles(db, AppsOf(db, j), a); } else { JobSettles(db, j, what, a); }
  }

  lemma TaskEventSettles(db: Db, t: TaskId, e: TaskEvent, a: AppId)
    requires Inv(db) && !Unsettled(db, a) && t in db.tasks
    ensures !Unsettled(Step(db, OnTask(t, e)), a)
  {
    TaskEventExactly(db, t, e);
    var after := Step(db, OnTask(t, e));
    if db.tasks[t].app != a {
      OthersSame(db.tasks, after.tasks, t, a);
    } else if TakesEffect(db, t, e) && e == Claim {
      assert IsLive(after.tasks[t]);
    }
  }

  lemma OthersSame(before: Tasks, after: Tasks, t: TaskId, a: AppId)
    requires t in before && before[t].app != a && after.Keys == before.Keys && after[t].app != a
    requires forall u | u in before && u != t :: after[u] == before[u]
    ensures HasTask(after, a) <==> HasTask(before, a)
    ensures HasLiveTask(after, a) <==> HasLiveTask(before, a)
  {
  }

  lemma DeleteSettles(db: Db, t: TaskId, a: AppId)
    requires Inv(db) && !Unsettled(db, a)
    ensures Unsettled(Step(db, DeleteTask(t)), a) <==> DeletesLast(db, DeleteTask(t), a)
  {
    var after := Step(db, DeleteTask(t));
    assert forall u | u in after.tasks :: u in db.tasks && u != t && after.tasks[u] == db.tasks[u];
    if DeletesLast(db, DeleteTask(t), a) {
      var u :| u in db.tasks && u != t && db.tasks[u].app == a;
      assert after.tasks[u].app == a;
    } else if Unsettled(after, a) {
      var u :| u in after.tasks && after.tasks[u].app == a;
      assert db.tasks[u].app == a && HasTask(db.tasks, a);
      var v :| v in db.tasks && db.tasks[v].app == a && IsLive(db.tasks[v]);
      LiveStays(db.tasks, t, a);
    }
  }

  lemma LiveStays(tasks: Tasks, t: TaskId, a: AppId)
    requires !HasLiveTask(tasks - {t}, a)
    ensures forall u | u in tasks && u != t && tasks[u].app == a :: !IsLive(tasks[u])
  {
    forall u | u in tasks && u != t && tasks[u].app == a ensures !IsLive(tasks[u]) {
      assert u in (tasks - {t}) && (tasks - {t})[u] == tasks[u];
    }
  }

  lemma ParkSettles(db: Db, job: JobId, session: nat, a: AppId)
    requires Inv(db) && !Unsettled(db, a)
    ensures !Unsettled(Park(db, job, session), a)
  {
  }

  lemma RetrySettles(db: Db, b: AppId, a: AppId)
    requires Inv(db) && !Unsettled(db, a)
    ensures !Unsettled(AutoRetry(db, b), a)
  {
    var after := AutoRetry(db, b);
    if after != db {
      if a == b {
        var t :| t in db.tasks && db.tasks[t].app == b && db.tasks[t].status == Failed;
        assert IsLive(after.tasks[t]) && after.tasks[t].app == a;
      } else {
        assert forall t | t in db.tasks && db.tasks[t].app == a :: after.tasks[t] == db.tasks[t];
        assert forall t | t in after.tasks && after.tasks[t].app == a :: t in db.tasks && db.tasks[t].app == a;
      }
    }
  }

  lemma CancelSettles(db: Db, job: JobId, a: AppId)
    requires Inv(db) && !Unsettled(db, a)
    ensures !Unsettled(CancelParked(db, job), a)
  {
  }

  lemma SweepSettles(db: Db, aged: set<AppId>, a: AppId)
    requires Inv(db) && !Unsettled(db, a)
    ensures !Unsettled(SweepOrphans(db, aged), a)
  {
  }

  lemma CascadeSettles(db: Db, gone: set<AppId>, a: AppId)
    requires Inv(db) && !Unsettled(db, a)
    ensures !Unsettled(WithoutApps(db, gone), a)
    ensures forall j :: !Unsettled(WithoutApps(db, gone).(jobs := WithoutApps(db, gone).jobs - {j}), a)
  {
    var after := WithoutApps(db, gone);
    if a !in gone {
      assert forall t | t in db.tasks && db.tasks[t].app == a :: t in after.tasks && after.tasks[t] == db.tasks[t];
      assert forall t | t in after.tasks :: t in db.tasks && after.tasks[t] == db.tasks[t];
    }
  }

  lemma JobSettles(db: Db, j: JobId, what: JobEvent, a: AppId)
    requires what != DeleteJob
    ensures Unsettled(JobStep(db, j, what), a) <==> Unsettled(db, a)
  {
  }

  /** A fan-out leaves every application but its own with the status it had. */
  lemma StatusKept(db: Db, app: Option<AppId>, r: Request, a: AppId)
    requires Inv(db) && TargetOk(db, app, r) && a in db.apps && a != Target(db, app)
    ensures var after := FanOut(db, app, r).0; a in after.apps ==> after.apps[a] == db.apps[a]
  {
    if FanOut(db, app, r).1.FannedOut? { FanOutInserts(db, app, r); }
  }

  lemma ApplySettles(db: Db, r: Request, a: AppId)
    requires Inv(db) && !Unsettled(db, a)
    ensures Unsettled(Step(db, Apply(r)), a) <==> EvictsLast(db, Apply(r), a)
  {
    if r.job in db.jobs {
      if FanOut(db, None, r).1.FannedOut? && UniquePaths(FanOut(db, None, r).0.tasks) {
        FannedOutSettles(db, r, a);
        FannedOutMakes(db, r);
      } else {
        RefusedSettles(db, r, a);
      }
    }
  }

  lemma FannedOutMakes(db: Db, r: Request)
    requires Inv(db) && r.job in db.jobs && FanOut(db, None, r).1.FannedOut? && UniquePaths(FanOut(db, None, r).0.tasks)
    ensures MakesTasks(db, r)
  {
    FanOutOutcome.ApplyMakesTasks(db, r);
    FannedOutTasks(db, None, r);
    assert db.nextTask + 0 in FanOut(db, None, r).0.tasks && db.nextTask !in db.tasks;
  }

  lemma RefusedSettles(db: Db, r: Request, a: AppId)
    requires Inv(db) && !Unsettled(db, a) && r.job in db.jobs
    requires !FanOut(db, None, r).1.FannedOut? || !UniquePaths(FanOut(db, None, r).0.tasks)
    ensures !Unsettled(Step(db, Apply(r)), a) && !MakesTasks(db, r)
  {
    FanOutOutcome.OutcomeExactly(db, None, r);
    FanOutIndex(db, None, r);
    if !FanOut(db, None, r).1.FannedOut? { FanOutOutcome.RefusalLeaves(db, None, r); }
  }

  lemma FannedOutSettles(db: Db, r: Request, a: AppId)
    requires Inv(db) && !Unsettled(db, a) && r.job in db.jobs && FanOut(db, None, r).1.FannedOut?
    ensures r.resolved.Some?
    ensures Unsettled(FanOut(db, None, r).0, a) <==>
      && a in db.apps && db.apps[a].status in {Pending, Running}
      && (forall t | t in db.tasks && db.tasks[t].app == a && IsLive(db.tasks[t]) :: FanOutOutcome.Displaced(db, r, t))
      && (exists t | t in db.tasks :: db.tasks[t].app == a && !FanOutOutcome.Displaced(db, r, t))
  {
    FannedOutTasks(db, None, r);
    if a == db.nextApp {
      NewAppIsLive(db, r);
    } else if a in db.apps {
      KeptAppUnsettled(db, r, a);
    } else {
      NoAppNoTask(db, r, a);
    }
  }

  lemma NewAppIsLive(db: Db, r: Request)
    requires Inv(db) && r.job in db.jobs && FanOut(db, None, r).1.FannedOut?
    ensures HasLiveTask(FanOut(db, None, r).0.tasks, db.nextApp) && db.nextApp !in db.apps
  {
    FannedOutTasks(db, None, r);
    assert IsLive(FanOut(db, None, r).0.tasks[db.nextTask + 0]);
  }

  lemma KeptAppUnsettled(db: Db, r: Request, a: AppId)
    requires Inv(db) && r.job in db.jobs && FanOut(db, None, r).1.FannedOut? && a in db.apps && a != db.nextApp && r.resolved.Some?
    ensures Unsettled(FanOut(db, None, r).0, a) <==>
      && db.apps[a].status in {Pending, Running}
      && (forall t | t in db.tasks && db.tasks[t].app == a && IsLive(db.tasks[t]) :: FanOutOutcome.Displaced(db, r, t))
      && (exists t | t in db.tasks :: db.tasks[t].app == a && !FanOutOutcome.Displaced(db, r, t))
  {
    var after := FanOut(db, None, r).0;
    FanOutOutcome.DisplacedExactly(db, None, r);
    NewTasksElsewhere(db, r, a);
    StatusKept(db, None, r, a);
    if t :| t in db.tasks && db.tasks[t].app == a && !FanOutOutcome.Displaced(db, r, t) {
      assert after.tasks[t].app == a;
      assert !FanOutOutcome.LeftEmpty(db, r, a);
    }
  }

  /** The tasks of any other application after the fan-out are those it had. */
  lemma NewTasksElsewhere(db: Db, r: Request, a: AppId)
    requires Inv(db) && r.job in db.jobs && FanOut(db, None, r).1.FannedOut? && a != db.nextApp
    ensures forall t | t in FanOut(db, None, r).0.tasks && FanOut(db, None, r).0.tasks[t].app == a :: t in db.tasks
  {
    FanOutInserts(db, None, r);
    ReadyOk(db, None, r);
    var ready := Ready(db, None, r);
    forall t | t in FanOut(db, None, r).0.tasks && FanOut(db, None, r).0.tasks[t].app == a ensures t in db.tasks {
      NewOrOld(ready, db.nextApp, r.resolved.value, t);
    }
  }

  lemma NoAppNoTask(db: Db, r: Request, a: AppId)
    requires Inv(db) && r.job in db.jobs && FanOut(db, None, r).1.FannedOut? && a != db.nextApp && a !in db.apps
    ensures a !in FanOut(db, None, r).0.apps
  {
    FanOutInserts(db, None, r);
  }

  lemma {:induction false} DrainSettles(db: Db, job: JobId, plan: seq<Parked>, a: AppId)
    requires Inv(db) && PlanOk(db, job, plan) && !Unsettled(db, a)
    ensures !Unsettled(Drain(db, plan).0, a)
    decreases |plan|
  {
    if plan != [] {
      DrainOneKeeps(db, job, plan);
      DrainOneSettles(db, plan[0], job, a);
      DrainSettles(DrainOne(db, plan[0]).0, job, plan[1..], a);
    }
  }

  lemma DrainOneSettles(db: Db, p: Parked, job: JobId, a: AppId)
    requires Inv(db) && !Unsettled(db, a) && TargetOk(db, Some(p.app), p.request) && !p.request.overwrite
    ensures !Unsettled(DrainOne(db, p).0, a)
  {
    if !p.held {
      var (after, outcome) := FanOut(db, Some(p.app), p.request);
      if outcome.FannedOut? {
        FannedOutTasks(db, Some(p.app), p.request);
        if a == p.app {
          assert db.nextTask + 0 in after.tasks && IsLive(after.tasks[db.nextTask + 0]);
        } else {
          DrainedElsewhere(db, p, a);
        }
      } else {
        FanOutOutcome.RefusalLeaves(db, Some(p.app), p.request);
      }
    }
  }

  lemma DrainedElsewhere(db: Db, p: Parked, a: AppId)
    requires Inv(db) && TargetOk(db, Some(p.app), p.request) && !p.request.overwrite && a != p.app
    requires FanOut(db, Some(p.app), p.request).1.FannedOut?
    ensures var after := FanOut(db, Some(p.app), p.request).0;
      && (a in after.apps <==> a in db.apps) && (a in db.apps ==> after.apps[a] == db.apps[a])
      && (HasTask(after.tasks, a) <==> HasTask(db.tasks, a)) && (HasLiveTask(after.tasks, a) <==> HasLiveTask(db.tasks, a))
  {
    var after := FanOut(db, Some(p.app), p.request).0;
    FanOutInserts(db, Some(p.app), p.request);
    assert Ready(db, Some(p.app), p.request) == db;
    forall t ensures t in after.tasks && after.tasks[t].app == a <==> t in db.tasks && db.tasks[t].app == a {
      if t in after.tasks { NewOrOld(db, p.app, p.request.resolved.value, t); }
      InsertKeepsRow(db, p.app, p.request.resolved.value, t);
    }
  }

  lemma InsertKeepsRow(db: Db, a: AppId, paths: seq<string>, t: TaskId)
    requires IdsOk(db)
    ensures t in db.tasks ==> t in Insert(db, a, paths).tasks && Insert(db, a, paths).tasks[t] == db.tasks[t]
  {
  }

  // ----- the other transactions ----------------------------------------------------------------------------------

  /** Putting an application's tasks back: when it has a failed one and every path they then claim is free, exactly
      its failed tasks are queued, with their attempts, and an ended application runs again; else nothing
      changes. */
  lemma RetryExactly(db: Db, a: AppId)
    requires Inv(db)
    ensures !RetryWorks(db, a) ==> Step(db, RetryApp(a)) == db
    ensures RetryWorks(db, a) ==>
      var after := Step(db, RetryApp(a));
      && TasksPutBack(db.tasks, after.tasks, a) && after.jobs == db.jobs && after.apps.Keys == db.apps.Keys
      && (forall b | b in db.apps && b != a :: after.apps[b] == db.apps[b])
      && after.apps[a] == App(db.apps[a].job, db.apps[a].session,
           if db.apps[a].status in {Completed, Broken, Partial} then Running else db.apps[a].status)
  {
    RetryCommits(db, a);
    FailedPutBack(db.tasks, a);
  }

  lemma RetryCommits(db: Db, a: AppId)
    requires Inv(db)
    ensures !RetryWorks(db, a) ==> AutoRetry(db, a) == db
    ensures RetryWorks(db, a) ==> a in db.apps && AutoRetry(db, a) == db.(tasks := RequeueFailed(db.tasks, a),
      apps := if db.apps[a].status in {Completed, Broken, Partial} then SetStatus(db.apps, a, Running) else db.apps)
  {
    if a in db.apps && exists t | t in db.tasks :: db.tasks[t].app == a && db.tasks[t].status == Failed { RetryIndex(db, a); }
  }

  predicate TasksPutBack(before: Tasks, after: Tasks, a: AppId) {
    && after.Keys == before.Keys
    && forall t | t in before ::
      if before[t].app == a && before[t].status == Failed then PutBackRow(before[t], after[t]) else after[t] == before[t]
  }

  lemma FailedPutBack(tasks: Tasks, a: AppId)
    ensures TasksPutBack(tasks, RequeueFailed(tasks, a), a)
  {
  }

  lemma RetryIndex(db: Db, a: AppId)
    requires Inv(db) && a in db.apps && exists t | t in db.tasks :: db.tasks[t].app == a && db.tasks[t].status == Failed
    ensures UniquePaths(RequeueFailed(db.tasks, a)) <==> RetryWorks(db, a)
  {
    var tasks := RequeueFailed(db.tasks, a);
    if UniquePaths(tasks) {
      forall t, u | t in db.tasks && db.tasks[t].app == a && db.tasks[t].status == Failed && u in db.tasks && u != t
          && db.tasks[u].path == db.tasks[t].path
        ensures db.tasks[u].status == Failed && db.tasks[u].app != a
      {
        assert tasks[t].path != tasks[u].path || !OwnsPath(tasks[u]);
      }
    } else {
      var t, u :| t in tasks && u in tasks && t != u && OwnsPath(tasks[t]) && OwnsPath(tasks[u]) && tasks[t].path == tasks[u].path;
      assert db.tasks[t].status == Failed || db.tasks[u].status == Failed;
    }
  }

  /** The application has a failed task, and no other live or failed task of it wants such a task's path. */
  predicate RetryWorks(db: Db, a: AppId) {
    && a in db.apps && (exists t | t in db.tasks :: db.tasks[t].app == a && db.tasks[t].status == Failed)
    && forall t, u | t in db.tasks && db.tasks[t].app == a && db.tasks[t].status == Failed && u in db.tasks && u != t
         && db.tasks[u].path == db.tasks[t].path :: db.tasks[u].status == Failed && db.tasks[u].app != a
  }

  predicate PutBackRow(was: Task, now: Task) {
    now.app == was.app && now.path == was.path && now.attempts == was.attempts && now.status == Queued
  }

  /** Cancelling what waits for a job cancels exactly its waiting applications. */
  lemma CancelExactly(db: Db, job: JobId)
    ensures var after := Step(db, CancelApps(job));
      && after.tasks == db.tasks && after.jobs == db.jobs && after.apps.Keys == db.apps.Keys
      && forall a | a in db.apps ::
        if db.apps[a].job == job && db.apps[a].status == Waiting then after.apps[a] == App(job, db.apps[a].session, Cancelled)
        else after.apps[a] == db.apps[a]
  {
  }

  /** Parking adds one waiting application of the session, unless one waits already or the job is gone. */
  lemma ParkExactly(db: Db, job: JobId, session: nat)
    ensures Step(db, ParkApp(job, session)) ==
      if job in db.jobs && App(job, session, Waiting) !in db.apps.Values
      then db.(apps := db.apps[db.nextApp := App(job, session, Waiting)], nextApp := db.nextApp + 1)
      else db
  {
    assert HasParked(db, job, session) <==> App(job, session, Waiting) in db.apps.Values;
  }

  /** Deleting an application or a job takes exactly what hangs on it along. */
  lemma CascadeExactly(db: Db, a: AppId, j: JobId)
    requires Inv(db)
    ensures var one, all := Step(db, DeleteApp(a)), Step(db, OnJob(j, DeleteJob));
      && one.jobs == db.jobs && all.jobs == db.jobs - {j}
      && (forall b :: b in one.apps <==> b in db.apps && b != a)
      && (forall b :: b in all.apps <==> b in db.apps && db.apps[b].job != j)
      && (forall t :: t in one.tasks <==> t in db.tasks && db.tasks[t].app != a)
      && (forall t :: t in all.tasks <==> t in db.tasks && db.apps[db.tasks[t].app].job != j)
  {
    assert forall t | t in db.tasks :: TaskOk(db, db.tasks[t]);
  }

  /** A parked application's turn in a drain: it is filled if and only if nothing holds it, its job is ripped, its
      template gives paths, and after the turns before it none of them is taken. */
  lemma {:induction false} DrainTurnExactly(db: Db, job: JobId, plan: seq<Parked>, i: nat)
    requires Inv(db) && PlanOk(db, job, plan) && i < |plan|
    ensures var mid := Drain(db, plan[..i]).0; var turn := Drain(db, plan).1[i];
      && Inv(mid) && plan[i].request.job in mid.jobs && (turn == Held <==> plan[i].held)
      && (turn == Tried(FannedOut(plan[i].app)) <==>
            !plan[i].held && FanOutOutcome.HasPaths(mid, plan[i].request)
            && !FanOutOutcome.Collides(mid.tasks, plan[i].request.onDisk, plan[i].request.resolved.value))
    decreases |plan|
  {
    var next := DrainOne(db, plan[0]).0;
    if i == 0 {
      assert plan[..0] == [];
      FanOutOutcome.OutcomeExactly(db, Some(plan[0].app), plan[0].request);
    } else {
      DrainOneKeeps(db, job, plan);
      assert plan[..i][0] == plan[0] && plan[..i][1..] == plan[1..][..i - 1];
      DrainTurnExactly(next, job, plan[1..], i - 1);
    }
  }

  // ----- over every run ------------------------------------------------------------------------------------------

  /** Over every run: a queued or running application that has tasks has a live one, unless its last live task was
      deleted or evicted at some point. */
  lemma {:induction false} WaitsForLiveTask(limit: nat, es: seq<Event>, a: AppId) returns (k: int)
    requires limit >= 1
    ensures Unsettled(Run(EmptyDb(limit), es), a) ==>
      0 <= k < |es| && var before := Run(EmptyDb(limit), es[..k]); DeletesLast(before, es[k], a) || EvictsLast(before, es[k], a)
    decreases |es|
  {
    k := -1;
    if es != [] {
      var front, e := es[..|es| - 1], es[|es| - 1];
      k := WaitsForLiveTask(limit, front, a);
      RunKeepsInv(EmptyDb(limit), front);
      var mid := Run(EmptyDb(limit), front);
      if Unsettled(mid, a) {
        assert es[..k] == front[..k];
      } else {
        UnsettledArises(mid, e, a);
        k := |front|;
      }
    }
  }
}
