/** What every run of the session pipeline keeps. */
module PipelineGuarantees {
  import opened Options
  import opened Pipeline

  // ----- fan-out and the index ---------------------------------------------------------------

  predicate TargetOk(db: Db, app: Option<AppId>, r: Request) {
    && r.job in db.jobs
    && (app.Some? ==> app.value in db.apps && db.apps[app.value].job == r.job && db.apps[app.value].status == Waiting)
  }

  predicate RowsOk(db: Db) { IdsOk(db) && JobsOk(db) && TasksOk(db) }

  /** A fan-out can only trip the unique index when it overwrites and its own paths repeat. */
  lemma FanOutIndex(db: Db, app: Option<AppId>, r: Request)
    requires Inv(db) && TargetOk(db, app, r) && (app.Some? ==> !r.overwrite)
    ensures var (after, outcome) := FanOut(db, app, r);
      && RowsOk(after)
      && (UniquePaths(after.tasks) <==> !(outcome.FannedOut? && r.overwrite && !Distinct(r.resolved.value)))
  {
    var (after, outcome) := FanOut(db, app, r);
    WithTargetKeepsInv(db, app, r, Waiting);
    if outcome.FannedOut? {
      var paths := r.resolved.value;
      var flagged := Flagged(db.tasks, paths, r.onDisk);
      var cleared := if flagged != {} then Evict(db, flagged, r.job) else db;
      EvictKeepsInv(db, flagged, r.job);
      NothingLiveAtFreePaths(db, r);
      WithTargetKeepsInv(cleared, app, r, Pending);
      var ready := WithTarget(cleared, app, r, Pending);
      InsertIndex(ready, Target(db, app), paths);
      InsertKeepsRows(ready, Target(db, app), paths);
      if !r.overwrite { UnflaggedAreDistinct(db, r); }
    }
  }

  lemma UnflaggedAreDistinct(db: Db, r: Request)
    requires r.resolved.Some? && Flagged(db.tasks, r.resolved.value, r.onDisk) == {}
    ensures Distinct(r.resolved.value)
  {
    var paths := r.resolved.value;
    forall i, j | 0 <= i < j < |paths| ensures paths[i] != paths[j] {
      var p := paths[i];
      assert p == paths[j] ==> Repeats(paths, p);
      assert Repeats(paths, p) ==> p in Flagged(db.tasks, paths, r.onDisk);
    }
  }

  /** The applications and tasks that are not `job`'s. */
  function OtherApps(db: Db, job: JobId): Apps {
    map a | a in db.apps && db.apps[a].job != job :: db.apps[a]
  }

  function OtherTasks(db: Db, job: JobId): Tasks {
    map t | t in db.tasks && !OwnedBy(db, db.tasks[t], job) :: db.tasks[t]
  }

  predicate OthersKept(before: Db, after: Db, job: JobId) {
    OtherApps(before, job) == OtherApps(after, job) && OtherTasks(before, job) == OtherTasks(after, job)
  }

  lemma EvictKeepsOthers(db: Db, paths: set<string>, job: JobId)
    requires TasksOk(db)
    ensures OthersKept(db, Evict(db, paths, job), job)
  {
    var after := Evict(db, paths, job);
    forall a | a in db.apps && db.apps[a].job != job ensures a in after.apps {
      assert forall t | t in db.tasks && db.tasks[t].app == a :: !OwnedBy(db, db.tasks[t], job);
      assert !Emptied(db, a, paths, job);
    }
    forall t | t in after.tasks ensures OwnedBy(after, after.tasks[t], job) <==> OwnedBy(db, db.tasks[t], job) {
      assert TaskOk(db, db.tasks[t]);
      assert !Emptied(db, db.tasks[t].app, paths, job);
    }
  }

  lemma TargetKeepsOthers(db: Db, app: Option<AppId>, r: Request, status: AppStatus)
    requires RowsOk(db)
    ensures OthersKept(db, WithTarget(db, app, r, status), r.job)
  {
    assert forall t | t in db.tasks :: TaskOk(db, db.tasks[t]);
  }

  lemma InsertKeepsOthers(db: Db, a: AppId, paths: seq<string>, job: JobId)
    requires RowsOk(db) && a in db.apps && db.apps[a].job == job
    ensures OthersKept(db, Insert(db, a, paths), job)
  {
    var after := Insert(db, a, paths);
    forall t | t in after.tasks
      ensures OwnedBy(after, after.tasks[t], job) || (t in db.tasks && after.tasks[t] == db.tasks[t] && !OwnedBy(db, db.tasks[t], job))
    {
      NewOrOld(db, a, paths, t);
      if t in db.tasks { assert TaskOk(db, db.tasks[t]); }
    }
    forall t | t in db.tasks ensures t in after.tasks && after.tasks[t] == db.tasks[t] && OwnedBy(db, db.tasks[t], job) == OwnedBy(after, after.tasks[t], job) {
      assert TaskOk(db, db.tasks[t]);
    }
    assert OtherApps(after, job) == OtherApps(db, job);
  }

  /** The database a successful fan-out inserts into. */
  function Ready(db: Db, app: Option<AppId>, r: Request): Db
    requires r.resolved.Some?
  {
    var flagged := Flagged(db.tasks, r.resolved.value, r.onDisk);
    WithTarget(if flagged != {} then Evict(db, flagged, r.job) else db, app, r, Pending)
  }

  lemma ReadyOk(db: Db, app: Option<AppId>, r: Request)
    requires Inv(db) && TargetOk(db, app, r) && r.resolved.Some?
    ensures var ready := Ready(db, app, r);
      && Inv(ready) && OthersKept(db, ready, r.job) && ready.nextTask == db.nextTask && ready.jobs == db.jobs
      && Target(db, app) in ready.apps && ready.apps[Target(db, app)].job == r.job
      && (forall t | t in ready.tasks :: t in db.tasks && ready.tasks[t] == db.tasks[t] && ready.tasks[t].app != Target(db, app))
  {
    var flagged := Flagged(db.tasks, r.resolved.value, r.onDisk);
    EvictKeepsInv(db, flagged, r.job);
    EvictKeepsOthers(db, flagged, r.job);
    var cleared := if flagged != {} then Evict(db, flagged, r.job) else db;
    WithTargetKeepsInv(cleared, app, r, Pending);
    TargetKeepsOthers(cleared, app, r, Pending);
    TargetHadNoTasks(db, app, r);
    TargetStays(db, app, r, flagged);
  }

  lemma FanOutInserts(db: Db, app: Option<AppId>, r: Request)
    requires TargetOk(db, app, r) && FanOut(db, app, r).1.FannedOut?
    ensures r.resolved.Some? && r.resolved.value != [] && db.jobs[r.job].ripped && r.compatible
    ensures Flagged(db.tasks, r.resolved.value, r.onDisk) == {} || (r.overwrite && !ForeignAt(db, r.resolved.value, r.job))
    ensures FanOut(db, app, r) == (Insert(Ready(db, app, r), Target(db, app), r.resolved.value), FannedOut(Target(db, app)))
  {
  }

  /** No fan-out, and so no apply and no eviction, changes another job's applications or tasks. */
  lemma FanOutKeepsOthers(db: Db, app: Option<AppId>, r: Request)
    requires Inv(db) && TargetOk(db, app, r)
    ensures OthersKept(db, FanOut(db, app, r).0, r.job)
  {
    if FanOut(db, app, r).1.FannedOut? {
      FanOutInserts(db, app, r);
      ReadyOk(db, app, r);
      InsertKeepsOthers(Ready(db, app, r), Target(db, app), r.resolved.value, r.job);
    } else {
      TargetKeepsOthers(db, app, r, Waiting);
    }
  }

  /** `a` is queued with exactly one fresh task for every path. */
  predicate Filled(db: Db, a: AppId, job: JobId, first: TaskId, paths: seq<string>) {
    && a in db.apps && db.apps[a].job == job && db.apps[a].status == Pending
    && (forall t | t in db.tasks && db.tasks[t].app == a :: first <= t < first + |paths|)
    && (forall i | 0 <= i < |paths| :: first + i in db.tasks && db.tasks[first + i] == Task(a, Queued, paths[i], 0, false))
  }

  /** A fan-out that succeeds is of a ripped job, takes no path that is taken unless it overwrites, and then
      none of another job, and leaves its application queued, with one fresh task for every path and no
      other, and at least one; any other outcome leaves the tasks alone. */
  lemma FannedOutTasks(db: Db, app: Option<AppId>, r: Request)
    requires Inv(db) && TargetOk(db, app, r)
    ensures var (after, outcome) := FanOut(db, app, r);
      if outcome.FannedOut? then
        && r.compatible && db.jobs[r.job].ripped && r.resolved.Some? && r.resolved.value != []
        && (Flagged(db.tasks, r.resolved.value, r.onDisk) == {} || (r.overwrite && !ForeignAt(db, r.resolved.value, r.job)))
        && Filled(after, outcome.app, r.job, db.nextTask, r.resolved.value)
      else after.tasks == db.tasks
  {
    if FanOut(db, app, r).1.FannedOut? {
      FanOutInserts(db, app, r);
      ReadyOk(db, app, r);
      InsertFills(Ready(db, app, r), Target(db, app), r.resolved.value);
    }
  }

  lemma InsertFills(db: Db, a: AppId, paths: seq<string>)
    requires IdsOk(db) && a in db.apps && forall t | t in db.tasks :: db.tasks[t].app != a
    ensures Filled(Insert(db, a, paths), a, db.apps[a].job, db.nextTask, paths)
  {
    InsertedRows(db, a, paths);
    forall t | t in Insert(db, a, paths).tasks && Insert(db, a, paths).tasks[t].app == a ensures db.nextTask <= t < db.nextTask + |paths| {
      NewOrOld(db, a, paths, t);
    }
  }

  lemma TargetHadNoTasks(db: Db, app: Option<AppId>, r: Request)
    requires Inv(db) && TargetOk(db, app, r)
    ensures forall t | t in db.tasks :: db.tasks[t].app != Target(db, app)
  {
    assert forall t | t in db.tasks :: TaskOk(db, db.tasks[t]);
  }

  /** Eviction never removes the application being filled. */
  lemma TargetStays(db: Db, app: Option<AppId>, r: Request, flagged: set<string>)
    requires Inv(db) && TargetOk(db, app, r)
    ensures var a := Target(db, app);
      && a in WithTarget(db, app, r, Pending).apps && WithTarget(db, app, r, Pending).apps[a].job == r.job
      && a in WithTarget(Evict(db, flagged, r.job), app, r, Pending).apps
      && WithTarget(Evict(db, flagged, r.job), app, r, Pending).apps[a].job == r.job
  {
    TargetHadNoTasks(db, app, r);
  }

  // ----- the drain ---------------------------------------------------------------------------

  lemma DrainOneKeeps(db: Db, job: JobId, plan: seq<Parked>)
    requires Inv(db) && PlanOk(db, job, plan) && plan != []
    ensures var after := DrainOne(db, plan[0]).0;
      Inv(after) && PlanOk(after, job, plan[1..]) && OthersKept(db, after, job) && after.jobs == db.jobs
    ensures forall t | t in db.tasks :: t in DrainOne(db, plan[0]).0.tasks && DrainOne(db, plan[0]).0.tasks[t] == db.tasks[t]
  {
    var p := plan[0];
    if !p.held {
      FanOutIndex(db, Some(p.app), p.request);
      FanOutKeepsOthers(db, Some(p.app), p.request);
      FannedOutTasks(db, Some(p.app), p.request);
    }
    DrainOneApps(db, p);
  }

  /** Without overwrite nothing is evicted: only the drained application changes. */
  lemma DrainOneApps(db: Db, p: Parked)
    requires p.request.job in db.jobs && !p.request.overwrite && p.app in db.apps
    ensures var after := DrainOne(db, p).0;
      && (forall a | a in db.apps :: a in after.apps && after.apps[a].job == db.apps[a].job)
      && (forall a | a in db.apps && a != p.app :: after.apps[a] == db.apps[a])
      && (forall t | t in db.tasks && t < db.nextTask :: t in after.tasks && after.tasks[t] == db.tasks[t])
      && db.nextTask <= after.nextTask
  {
  }

  lemma {:induction false} DrainKeeps(db: Db, job: JobId, plan: seq<Parked>)
    requires Inv(db) && PlanOk(db, job, plan)
    ensures var after := Drain(db, plan).0; Inv(after) && OthersKept(db, after, job)
    ensures forall t | t in db.tasks :: t in Drain(db, plan).0.tasks && Drain(db, plan).0.tasks[t] == db.tasks[t]
    decreases |plan|
  {
    if plan != [] {
      DrainOneKeeps(db, job, plan);
      DrainKeeps(DrainOne(db, plan[0]).0, job, plan[1..]);
    }
  }

  /** A path taken by a live task is still taken after the rest of the drain, so it is refused to every
      later application. */
  lemma TakenPathRefused(db: Db, p: Parked, path: string)
    requires p.request.job in db.jobs && !p.request.overwrite && LiveAt(db.tasks, path)
    requires p.request.resolved.Some? && path in p.request.resolved.value && db.jobs[p.request.job].ripped
    ensures DrainOne(db, p) == (db, if p.held then Held else Tried(if p.request.compatible then Collisions else MediaMismatch))
  {
    assert path in Flagged(db.tasks, p.request.resolved.value, p.request.onDisk);
  }

  lemma StaysTaken(db: Db, next: Db, path: string)
    requires LiveAt(db.tasks, path) && forall t | t in db.tasks :: t in next.tasks && next.tasks[t] == db.tasks[t]
    ensures LiveAt(next.tasks, path)
  {
    var t :| t in db.tasks && OwnsPath(db.tasks[t]) && db.tasks[t].path == path;
    assert OwnsPath(next.tasks[t]);
  }

  lemma {:induction false} LaterRefused(db: Db, job: JobId, plan: seq<Parked>, j: nat, path: string)
    requires Inv(db) && PlanOk(db, job, plan) && j < |plan| && LiveAt(db.tasks, path) && db.jobs[job].ripped
    requires plan[j].request.resolved.Some? && path in plan[j].request.resolved.value
    ensures Drain(db, plan).1[j] == if plan[j].held then Held else Tried(if plan[j].request.compatible then Collisions else MediaMismatch)
    decreases |plan|
  {
    if j == 0 {
      TakenPathRefused(db, plan[0], path);
    } else {
      var next := DrainOne(db, plan[0]).0;
      DrainOneKeeps(db, job, plan);
      StaysTaken(db, next, path);
      LaterRefused(next, job, plan[1..], j - 1, path);
    }
  }

  lemma WinnerTakesPath(db: Db, p: Parked, path: string)
    requires Inv(db) && TargetOk(db, Some(p.app), p.request)
    requires DrainOne(db, p).1.Tried? && DrainOne(db, p).1.outcome.FannedOut?
    requires p.request.resolved.Some? && path in p.request.resolved.value
    ensures LiveAt(DrainOne(db, p).0.tasks, path) && db.jobs[p.request.job].ripped
  {
    FannedOutTasks(db, Some(p.app), p.request);
    var k :| 0 <= k < |p.request.resolved.value| && p.request.resolved.value[k] == path;
    assert OwnsPath(DrainOne(db, p).0.tasks[db.nextTask + k]);
  }

  /** Of two parked applications that want the same path, the earlier one gets it. */
  lemma {:induction false} EarlierWins(db: Db, job: JobId, plan: seq<Parked>, i: nat, j: nat, path: string)
    requires Inv(db) && PlanOk(db, job, plan) && i < j < |plan|
    requires Drain(db, plan).1[i].Tried? && Drain(db, plan).1[i].outcome.FannedOut?
    requires plan[i].request.resolved.Some? && path in plan[i].request.resolved.value
    requires plan[j].request.resolved.Some? && path in plan[j].request.resolved.value
    ensures Drain(db, plan).1[j] == if plan[j].held then Held else Tried(if plan[j].request.compatible then Collisions else MediaMismatch)
    decreases |plan|
  {
    var next := DrainOne(db, plan[0]).0;
    DrainOneKeeps(db, job, plan);
    if i == 0 {
      WinnerTakesPath(db, plan[0], path);
      LaterRefused(next, job, plan[1..], j - 1, path);
    } else {
      EarlierWins(next, job, plan[1..], i - 1, j - 1, path);
    }
  }

  // ----- every transaction keeps the invariant -------------------------------------------------

  lemma AggregateNotWaiting(tasks: Tasks, a: AppId, current: AppStatus)
    requires current != Waiting
    ensures Aggregate(tasks, a, current) != Waiting
  {
  }

  lemma TaskStepKeepsInv(db: Db, t: TaskId, e: TaskEvent)
    requires Inv(db)
    ensures Inv(TaskStep(db, t, e))
  {
    if t in db.tasks && NextRow(db.tasks[t], e, db.limit).Some? {
      assert TaskOk(db, db.tasks[t]);
      var row := NextRow(db.tasks[t], e, db.limit).value;
      var tasks := db.tasks[t := row];
      var status := NextAppStatus(tasks, row.app, e, db.apps[row.app].status);
      assert status != Waiting;
      var after := db.(tasks := tasks, apps := SetStatus(db.apps, row.app, status));
      forall u | u in after.tasks ensures TaskOk(after, after.tasks[u]) {
        assert TaskOk(db, db.tasks[u]);
      }
    }
  }

  lemma DeleteKeepsInv(db: Db, gone: set<AppId>, t: TaskId)
    requires Inv(db)
    ensures Inv(WithoutApps(db, gone)) && Inv(db.(tasks := db.tasks - {t}))
  {
    var after := WithoutApps(db, gone);
    forall u | u in after.tasks ensures TaskOk(after, after.tasks[u]) {
      assert TaskOk(db, db.tasks[u]);
    }
    var less := db.(tasks := db.tasks - {t});
    forall u | u in less.tasks ensures TaskOk(less, less.tasks[u]) {
      assert TaskOk(db, db.tasks[u]);
    }
  }

  lemma AutoRetryKeepsInv(db: Db, a: AppId)
    requires Inv(db)
    ensures Inv(AutoRetry(db, a))
  {
    var apps := if a in db.apps && db.apps[a].status in {Broken, Partial, Completed} then SetStatus(db.apps, a, Running) else db.apps;
    var after := db.(tasks := RequeueFailed(db.tasks, a), apps := apps);
    forall u | u in after.tasks ensures TaskOk(after, after.tasks[u]) {
      assert TaskOk(db, db.tasks[u]);
    }
  }

  lemma StatusChangeKeepsInv(db: Db, apps: Apps)
    requires Inv(db) && apps.Keys == db.apps.Keys
    requires forall a | a in apps :: apps[a].job == db.apps[a].job && (db.apps[a].status != Waiting ==> apps[a].status != Waiting)
    ensures Inv(db.(apps := apps))
  {
    var after := db.(apps := apps);
    forall u | u in after.tasks ensures TaskOk(after, after.tasks[u]) {
      assert TaskOk(db, db.tasks[u]);
    }
  }

  lemma SweepKeepsInv(db: Db, aged: set<AppId>)
    requires Inv(db)
    ensures Inv(SweepOrphans(db, aged))
  {
    forall a | a in db.apps && db.apps[a].status != Waiting ensures SweptApp(db, a, aged).status != Waiting {
      AggregateNotWaiting(db.tasks, a, db.apps[a].status);
    }
    StatusChangeKeepsInv(db, SweepOrphans(db, aged).apps);
  }

  lemma ParkKeepsInv(db: Db, job: JobId, session: nat)
    requires Inv(db)
    ensures Inv(Park(db, job, session))
  {
    if job in db.jobs && !HasParked(db, job, session) {
      WithTargetKeepsInv(db, None, Request(job, session, true, None, {}, false), Waiting);
    }
  }

  lemma JobStepKeepsInv(db: Db, j: JobId, e: JobEvent)
    requires Inv(db)
    ensures Inv(JobStep(db, j, e))
  {
    var base := if e.DeleteJob? then WithoutApps(db, AppsOf(db, j)) else db;
    DeleteKeepsInv(db, AppsOf(db, j), 0);
    var after := JobStep(db, j, e);
    forall u | u in after.tasks ensures TaskOk(after, after.tasks[u]) {
      assert TaskOk(base, base.tasks[u]);
    }
  }

  lemma StepKeepsInv(db: Db, e: Event)
    requires Inv(db)
    ensures Inv(Step(db, e))
  {
    match e
    case OnTask(t, what) => TaskStepKeepsInv(db, t, what);
    case DeleteTask(t) => DeleteKeepsInv(db, {}, t);
    case Apply(r) => if r.job in db.jobs { FanOutIndex(db, None, r); }
    case ParkApp(job, session) => ParkKeepsInv(db, job, session);
    case RetryApp(a) => AutoRetryKeepsInv(db, a);
    case DrainJob(job, plan) => if PlanOk(db, job, plan) { DrainKeeps(db, job, plan); }
    case CancelApps(job) => StatusChangeKeepsInv(db, CancelParked(db, job).apps);
    case Sweep(aged) => SweepKeepsInv(db, aged);
    case DeleteApp(a) => DeleteKeepsInv(db, {a}, 0);
    case OnJob(j, event) => JobStepKeepsInv(db, j, event);
  }

  lemma {:induction false} RunKeepsInv(db: Db, es: seq<Event>)
    requires Inv(db)
    ensures Inv(Run(db, es))
    decreases |es|
  {
    if es != [] {
      RunKeepsInv(db, es[..|es| - 1]);
      StepKeepsInv(Run(db, es[..|es| - 1]), es[|es| - 1]);
    }
  }

  /** In every run each path has at most one live task, no task exists for a job that was never ripped, a
      waiting application has no tasks, and a queued task that was not put back has attempts left. */
  lemma EveryRun(limit: nat, es: seq<Event>, t: TaskId, u: TaskId)
    requires limit >= 1
    ensures var db := Run(EmptyDb(limit), es);
      t in db.tasks ==>
        && db.tasks[t].app in db.apps && db.apps[db.tasks[t].app].status != Waiting
        && db.apps[db.tasks[t].app].job in db.jobs && db.jobs[db.apps[db.tasks[t].app].job].wasRipped
        && (db.tasks[t].status == Queued && !db.tasks[t].retried ==> db.tasks[t].attempts < db.limit)
        && (u in db.tasks && u != t && db.tasks[u].path == db.tasks[t].path && db.tasks[u].status != Failed ==> db.tasks[t].status == Failed)
  {
    RunKeepsInv(EmptyDb(limit), es);
    var db := Run(EmptyDb(limit), es);
    assert t in db.tasks ==> TaskOk(db, db.tasks[t]);
  }

  // ----- jobs that are put back ------------------------------------------------------------------------

  /** Since its last finished rip the job was put back to ripping. */
  predicate PutBack(es: seq<Event>, j: JobId) {
    if es == [] then false
    else
      match es[|es| - 1]
      case OnJob(k, what) =>
        if k != j || what == NewJob then PutBack(es[..|es| - 1], j) else what == RipAgain
      case _ => PutBack(es[..|es| - 1], j)
  }

  lemma StepKeepsJobs(db: Db, e: Event)
    requires !e.OnJob?
    ensures Step(db, e).jobs == db.jobs
  {
    match e
    case Apply(r) => if r.job in db.jobs { assert FanOut(db, None, r).0.jobs == db.jobs; }
    case DrainJob(job, plan) => if PlanOk(db, job, plan) { assert Drain(db, plan).0.jobs == db.jobs; }
    case _ =>
  }

  lemma {:induction false} UnrippedMeansPutBack(limit: nat, es: seq<Event>, j: JobId)
    ensures var jobs := Run(EmptyDb(limit), es).jobs;
      j in jobs && jobs[j].wasRipped ==> (!jobs[j].ripped <==> PutBack(es, j))
    decreases |es|
  {
    if es != [] {
      var front, e := es[..|es| - 1], es[|es| - 1];
      UnrippedMeansPutBack(limit, front, j);
      if !e.OnJob? { StepKeepsJobs(Run(EmptyDb(limit), front), e); }
    }
  }

  /** In every run the job of a task is not ripped if and only if it was put back since its last finished rip. */
  lemma TaskOfUnrippedJob(limit: nat, es: seq<Event>, t: TaskId)
    requires limit >= 1 && t in Run(EmptyDb(limit), es).tasks
    ensures var db := Run(EmptyDb(limit), es);
      && db.tasks[t].app in db.apps && db.apps[db.tasks[t].app].job in db.jobs
      && var j := db.apps[db.tasks[t].app].job; (!db.jobs[j].ripped <==> PutBack(es, j))
  {
    EveryRun(limit, es, t, t);
    var db := Run(EmptyDb(limit), es);
    UnrippedMeansPutBack(limit, es, db.apps[db.tasks[t].app].job);
  }

  const FirstApply: Request := Request(0, 0, true, Some(["a"]), {}, false)

  /** An empty database, one job whose rip finished, one application of it with one path. */
  lemma FirstTask(limit: nat)
    ensures var db := FanOut(EmptyDb(limit).(jobs := map[0 := Job(true, true)]), None, FirstApply).0;
      db == Db(map[0 := Job(true, true)], map[0 := App(0, 0, Pending)], map[0 := Task(0, Queued, "a", 0, false)], 1, 1, limit)
  {
    var ripped := EmptyDb(limit).(jobs := map[0 := Job(true, true)]);
    assert Flagged(ripped.tasks, ["a"], {}) == {};
    assert FanOut(ripped, None, FirstApply) == (Insert(AddApp(ripped, 0, 0, Pending), 0, ["a"]), FannedOut(0));
    assert NewTasks(0, 0, ["a"]) == map[0 := Task(0, Queued, "a", 0, false)];
  }

  /** A job with tasks is put back to ripping: its queued task stays. */
  lemma PutBackKeepsTask(limit: nat)
    ensures var db := Run(EmptyDb(limit), [OnJob(0, NewJob), OnJob(0, RipDone), Apply(FirstApply), OnJob(0, RipAgain)]);
      db == Db(map[0 := Job(false, true)], map[0 := App(0, 0, Pending)], map[0 := Task(0, Queued, "a", 0, false)], 1, 1, limit)
  {
    var es := [OnJob(0, NewJob), OnJob(0, RipDone), Apply(FirstApply), OnJob(0, RipAgain)];
    RunOnto(EmptyDb(limit), es, 4);
    RunOnto(EmptyDb(limit), es, 3);
    RunOnto(EmptyDb(limit), es, 2);
    RunOnto(EmptyDb(limit), es, 1);
    FirstTask(limit);
  }

  lemma RunOnto(db: Db, es: seq<Event>, n: nat)
    requires 0 < n <= |es|
    ensures es[..|es|] == es && es[..0] == []
    ensures Run(db, es[..n]) == Step(Run(db, es[..n - 1]), es[n - 1])
  {
    assert es[..n][..n - 1] == es[..n - 1];
  }
}
