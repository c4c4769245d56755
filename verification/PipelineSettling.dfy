/** How tasks end, how applications settle, and when tasks may appear. */
module PipelineSettling {
  import opened Options
  import opened Pipeline
  import opened PipelineGuarantees

  // ----- attempts ----------------------------------------------------------------------------

  function Left(task: Task, limit: nat): nat {
    if task.attempts >= limit then 0 else limit - task.attempts
  }

  /** Attempts left first, then how far the current attempt is. */
  function Measure(task: Task, limit: nat): nat {
    match task.status
    case Queued => if Left(task, limit) == 0 then 2 else 2 * Left(task, limit)
    case InProgress => 2 * Left(task, limit) + 1
    case _ => 0
  }

  function Remaining(db: Db, t: TaskId): nat {
    if t in db.tasks then Measure(db.tasks[t], db.limit) else 0
  }

  /** Every transition of a task but a retry uses up some of its measure. */
  lemma TransitionFalls(task: Task, e: TaskEvent, limit: nat)
    requires NextRow(task, e, limit).Some? && e != Retry && limit >= 1
    ensures Measure(NextRow(task, e, limit).value, limit) < Measure(task, limit)
  {
  }

  predicate Retries(db: Db, t: TaskId, e: Event) {
    e == OnTask(t, Retry) || (e.RetryApp? && t in db.tasks && db.tasks[t].app == e.app)
  }

  predicate Changes(db: Db, t: TaskId, e: Event) {
    t in db.tasks && !(t in Step(db, e).tasks && Step(db, e).tasks[t] == db.tasks[t])
  }

  lemma StepFalls(db: Db, t: TaskId, e: Event)
    requires Inv(db) && t < db.nextTask && !Retries(db, t, e)
    ensures Step(db, e).limit == db.limit && t < Step(db, e).nextTask
    ensures Remaining(Step(db, e), t) <= Remaining(db, t)
    ensures Changes(db, t, e) && t in Step(db, e).tasks ==> Remaining(Step(db, e), t) < Remaining(db, t)
  {
    match e
    case OnTask(u, what) =>
      if u == t && t in db.tasks && NextRow(db.tasks[t], what, db.limit).Some? { TransitionFalls(db.tasks[t], what, db.limit); }
    case Apply(r) => if r.job in db.jobs { ApplyKeepsRow(db, r, t); }
    case DrainJob(job, plan) => if PlanOk(db, job, plan) { DrainKeepsRow(db, job, plan, t); }
    case _ =>
  }

  lemma ApplyKeepsRow(db: Db, r: Request, t: TaskId)
    requires Inv(db) && r.job in db.jobs && t < db.nextTask
    ensures var after := FanOut(db, None, r).0;
      t in after.tasks ==> t in db.tasks && after.tasks[t] == db.tasks[t]
    ensures db.nextTask <= FanOut(db, None, r).0.nextTask && FanOut(db, None, r).0.limit == db.limit
  {
    if FanOut(db, None, r).1.FannedOut? {
      FanOutInserts(db, None, r);
      ReadyOk(db, None, r);
      var ready := Ready(db, None, r);
      if t in Insert(ready, Target(db, None), r.resolved.value).tasks {
        NewOrOld(ready, Target(db, None), r.resolved.value, t);
      }
    }
  }

  lemma {:induction false} DrainKeepsRow(db: Db, job: JobId, plan: seq<Parked>, t: TaskId)
    requires Inv(db) && PlanOk(db, job, plan) && t < db.nextTask
    ensures var after := Drain(db, plan).0;
      (t in after.tasks <==> t in db.tasks) && (t in db.tasks ==> after.tasks[t] == db.tasks[t])
    ensures db.nextTask <= Drain(db, plan).0.nextTask && Drain(db, plan).0.limit == db.limit
    decreases |plan|
  {
    if plan != [] {
      DrainOneKeeps(db, job, plan);
      DrainOneRow(db, plan[0], t);
      DrainKeepsRow(DrainOne(db, plan[0]).0, job, plan[1..], t);
    }
  }

  lemma DrainOneRow(db: Db, p: Parked, t: TaskId)
    requires p.request.job in db.jobs && !p.request.overwrite && p.app in db.apps && t < db.nextTask
    ensures var after := DrainOne(db, p).0;
      && (t in after.tasks <==> t in db.tasks) && db.nextTask <= after.nextTask && after.limit == db.limit
  {
  }

  /** How often a run changes the row of `t` (deleting it included). */
  function ChangeCount(db: Db, t: TaskId, es: seq<Event>): nat {
    if es == [] then 0
    else
      var before := es[..|es| - 1];
      ChangeCount(db, t, before) + if Changes(Run(db, before), t, es[|es| - 1]) then 1 else 0
  }

  predicate NoRetry(db: Db, t: TaskId, es: seq<Event>) {
    es == [] || (NoRetry(db, t, es[..|es| - 1]) && !Retries(Run(db, es[..|es| - 1]), t, es[|es| - 1]))
  }

  lemma {:induction false} RunFalls(db: Db, t: TaskId, es: seq<Event>)
    requires Inv(db) && t < db.nextTask && NoRetry(db, t, es)
    ensures var after := Run(db, es);
      && Inv(after) && after.limit == db.limit && t < after.nextTask
      && ChangeCount(db, t, es) + Remaining(after, t) <= Remaining(db, t) + (if t in db.tasks && t !in after.tasks then 1 else 0)
      && (t !in db.tasks ==> t !in after.tasks)
    decreases |es|
  {
    if es != [] {
      var before := es[..|es| - 1];
      RunFalls(db, t, before);
      var mid := Run(db, before);
      StepKeepsInv(mid, es[|es| - 1]);
      StepFalls(mid, t, es[|es| - 1]);
      if t !in mid.tasks { GoneStaysGone(mid, t, es[|es| - 1]); }
    }
  }

  lemma GoneStaysGone(db: Db, t: TaskId, e: Event)
    requires Inv(db) && t < db.nextTask && t !in db.tasks
    ensures t !in Step(db, e).tasks
  {
    match e
    case Apply(r) => if r.job in db.jobs { ApplyKeepsRow(db, r, t); }
    case DrainJob(job, plan) => if PlanOk(db, job, plan) { DrainKeepsRow(db, job, plan, t); }
    case _ =>
  }

  /** Between retries a task's row changes at most twice for each attempt left, once for an attempt under
      way and once when it is deleted. */
  lemma TaskRunIsFinite(db: Db, t: TaskId, es: seq<Event>)
    requires Inv(db) && t < db.nextTask && NoRetry(db, t, es)
    ensures ChangeCount(db, t, es) <= 2 * db.limit + 2
  {
    RunFalls(db, t, es);
  }

  // ----- settling ----------------------------------------------------------------------------

  predicate SettledAs(tasks: Tasks, a: AppId, s: AppStatus) {
    var own := TasksOf(tasks, a);
    && own != {} && (forall t | t in own :: Terminal(tasks[t].status))
    && (s == Completed <==> forall t | t in own :: tasks[t].status == Done)
    && (s == Broken <==> forall t | t in own :: tasks[t].status == Failed)
    && s in {Completed, Broken, Partial}
  }

  /** Aggregation leaves the status alone, or makes it the one its task statuses alone determine. */
  lemma AggregateSettles(tasks: Tasks, a: AppId, current: AppStatus)
    ensures var s := Aggregate(tasks, a, current);
      if TasksOf(tasks, a) == {} || HasLive(tasks, a) then s == current else SettledAs(tasks, a, s)
  {
    assert HasLive(tasks, a) <==> exists t | t in TasksOf(tasks, a) :: !Terminal(tasks[t].status);
    var own := TasksOf(tasks, a);
    if own != {} { var t :| t in own; }
  }

  /** After the orphan sweep every queued or running application past the grace window has a live task;
      one that had none is failed when it has no tasks, and settled by its tasks otherwise. */
  lemma SweepLeavesNoOrphan(db: Db, aged: set<AppId>, a: AppId)
    requires a in aged && a in db.apps
    ensures var after := SweepOrphans(db, aged);
      && a in after.apps && after.tasks == db.tasks && !Orphaned(after, a)
      && (Orphaned(db, a) ==>
            if TasksOf(db.tasks, a) == {} then after.apps[a].status == Broken
            else SettledAs(db.tasks, a, after.apps[a].status))
      && (!Orphaned(db, a) ==> after.apps[a] == db.apps[a])
  {
    AggregateSettles(db.tasks, a, db.apps[a].status);
  }

  /** `sweep_stale_claims` over the rows its select returned, in order. */
  function SweepStale(db: Db, stale: seq<TaskId>): Db {
    if stale == [] then db else TaskStep(SweepStale(db, stale[..|stale| - 1]), stale[|stale| - 1], Stale)
  }

  lemma StaleRow(db: Db, t: TaskId)
    requires Inv(db)
    ensures var after := TaskStep(db, t, Stale);
      && after.tasks.Keys == db.tasks.Keys && after.limit == db.limit
      && (forall u | u in db.tasks && u != t :: after.tasks[u] == db.tasks[u])
      && (t in db.tasks ==> after.tasks[t] == SweptRow(db, db.tasks[t]))
  {
    if t in db.tasks && NextRow(db.tasks[t], Stale, db.limit).Some? {
      assert TaskOk(db, db.tasks[t]);
      assert UniquePaths(db.tasks[t := SweptRow(db, db.tasks[t])]);
    }
  }

  /** A stale claim with attempts left is queued again, one without fails; nothing else changes. */
  function SweptRow(db: Db, task: Task): Task {
    if task.status != InProgress then task
    else task.(status := if task.attempts >= db.limit then Failed else Queued, retried := false)
  }

  lemma {:induction false} StaleSweepRows(db: Db, stale: seq<TaskId>)
    requires Inv(db)
    ensures var after := SweepStale(db, stale);
      && Inv(after) && after.limit == db.limit && after.tasks.Keys == db.tasks.Keys
      && forall t | t in db.tasks :: after.tasks[t] == if t in stale then SweptRow(db, db.tasks[t]) else db.tasks[t]
  {
    if stale != [] {
      var before, t := stale[..|stale| - 1], stale[|stale| - 1];
      StaleSweepRows(db, before);
      StaleRow(SweepStale(db, before), t);
      TaskStepKeepsInv(SweepStale(db, before), t, Stale);
      assert stale == before + [t];
    }
  }

  // ----- where tasks come from -----------------------------------------------------------------

  /** A task appears only by a fan-out of a job that is ripped at that moment, in an application that then
      is queued with tasks. */
  lemma NewTaskMeansRipped(db: Db, e: Event, t: TaskId)
    requires Inv(db) && t !in db.tasks && t in Step(db, e).tasks
    ensures var after := Step(db, e);
      var task := after.tasks[t];
      && task.app in after.apps && after.apps[task.app].status == Pending && task.status == Queued && task.attempts == 0
      && after.apps[task.app].job in db.jobs && db.jobs[after.apps[task.app].job].ripped
  {
    match e
    case Apply(r) => if r.job in db.jobs { FanOutAdds(db, None, r, t); }
    case DrainJob(job, plan) => if PlanOk(db, job, plan) { DrainAdds(db, job, plan, t); }
    case _ =>
  }

  predicate FreshTask(db: Db, after: Db, t: TaskId) {
    && t in after.tasks && after.tasks[t].status == Queued && after.tasks[t].attempts == 0
    && after.tasks[t].app in after.apps && after.apps[after.tasks[t].app].status == Pending
    && after.apps[after.tasks[t].app].job in db.jobs && db.jobs[after.apps[after.tasks[t].app].job].ripped
  }

  lemma FanOutAdds(db: Db, app: Option<AppId>, r: Request, t: TaskId)
    requires Inv(db) && TargetOk(db, app, r) && t !in db.tasks && t in FanOut(db, app, r).0.tasks
    ensures FreshTask(db, FanOut(db, app, r).0, t)
  {
    FannedOutTasks(db, app, r);
    FanOutInserts(db, app, r);
    ReadyOk(db, app, r);
    NewOrOld(Ready(db, app, r), Target(db, app), r.resolved.value, t);
  }

  lemma {:induction false} DrainAdds(db: Db, job: JobId, plan: seq<Parked>, t: TaskId)
    requires Inv(db) && PlanOk(db, job, plan) && t !in db.tasks && t in Drain(db, plan).0.tasks
    ensures FreshTask(db, Drain(db, plan).0, t)
    decreases |plan|
  {
    if plan != [] {
      var mid := DrainOne(db, plan[0]).0;
      DrainOneKeeps(db, job, plan);
      if t in mid.tasks {
        FanOutAdds(db, Some(plan[0].app), plan[0].request, t);
        DrainKeepsFresh(mid, job, plan[1..], t);
      } else {
        DrainAdds(mid, job, plan[1..], t);
      }
    }
  }

  lemma {:induction false} DrainKeepsFresh(db: Db, job: JobId, plan: seq<Parked>, t: TaskId)
    requires Inv(db) && PlanOk(db, job, plan) && FreshTask(db, db, t)
    ensures FreshTask(db, Drain(db, plan).0, t)
    decreases |plan|
  {
    if plan != [] {
      DrainOneKeeps(db, job, plan);
      DrainOneApps(db, plan[0]);
      DrainKeepsFresh(DrainOne(db, plan[0]).0, job, plan[1..], t);
    }
  }
}
