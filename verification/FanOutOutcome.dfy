/** When a fan-out ends how, and what it takes away: said of the task rows, the files on disk and the resolved
    paths alone. */
module FanOutOutcome {
  import opened Options
  import opened Pipeline
  import opened PipelineGuarantees

  /** A task that did not fail claims the path. */
  predicate HasLiveTask(tasks: Tasks, p: string) {
    exists t | t in tasks :: tasks[t].status != Failed && tasks[t].path == p
  }

  predicate Twice(paths: seq<string>, p: string) {
    exists i, j | 0 <= i < j < |paths| :: paths[i] == p && paths[j] == p
  }

  /** One of the request's paths is claimed by a task, there on disk, or asked for twice. */
  predicate Colliding(tasks: Tasks, onDisk: set<string>, paths: seq<string>, p: string) {
    p in paths && (HasLiveTask(tasks, p) || p in onDisk || Twice(paths, p))
  }

  predicate Collides(tasks: Tasks, onDisk: set<string>, paths: seq<string>) {
    exists i | 0 <= i < |paths| :: Colliding(tasks, onDisk, paths, paths[i])
  }

  /** The task belongs to an application of the job. */
  predicate Own(db: Db, t: TaskId, job: JobId)
    requires t in db.tasks
  {
    db.tasks[t].app in db.apps && db.apps[db.tasks[t].app].job == job
  }

  /** A live task at one of the paths is not the job's own. */
  predicate OthersTask(db: Db, paths: seq<string>, job: JobId) {
    exists t | t in db.tasks :: db.tasks[t].status != Failed && db.tasks[t].path in paths && !Own(db, t, job)
  }

  predicate OwnRunning(db: Db, paths: seq<string>, job: JobId) {
    exists t | t in db.tasks :: db.tasks[t].status == InProgress && db.tasks[t].path in paths && Own(db, t, job)
  }

  /** The media fit, the job is ripped and the template gives at least one path. */
  predicate HasPaths(db: Db, r: Request)
    requires r.job in db.jobs
  {
    r.compatible && db.jobs[r.job].ripped && r.resolved.Some? && r.resolved.value != []
  }

  lemma FlaggedMeans(db: Db, r: Request)
    requires r.resolved.Some?
    ensures var paths := r.resolved.value; var flagged := Flagged(db.tasks, paths, r.onDisk);
      && (forall p :: p in flagged <==> Colliding(db.tasks, r.onDisk, paths, p))
      && (flagged != {} <==> Collides(db.tasks, r.onDisk, paths))
  {
    var paths := r.resolved.value;
    var flagged := Flagged(db.tasks, paths, r.onDisk);
    forall p ensures p in flagged <==> Colliding(db.tasks, r.onDisk, paths, p) {
      assert LiveAt(db.tasks, p) <==> HasLiveTask(db.tasks, p);
    }
    if flagged != {} {
      var p :| p in flagged;
      var i :| 0 <= i < |paths| && paths[i] == p;
      assert Colliding(db.tasks, r.onDisk, paths, paths[i]);
    }
  }

  lemma RunningMeans(db: Db, r: Request)
    requires r.resolved.Some?
    ensures ForeignAt(db, r.resolved.value, r.job) <==> OthersTask(db, r.resolved.value, r.job)
    ensures RunningAt(db, Flagged(db.tasks, r.resolved.value, r.onDisk), r.job) <==> OwnRunning(db, r.resolved.value, r.job)
  {
    var paths := r.resolved.value;
    forall t | t in db.tasks ensures OwnedBy(db, db.tasks[t], r.job) <==> Own(db, t, r.job) {
    }
    FlaggedMeans(db, r);
    forall t | t in db.tasks && db.tasks[t].status == InProgress && db.tasks[t].path in paths
      ensures db.tasks[t].path in Flagged(db.tasks, paths, r.onDisk)
    {
      assert HasLiveTask(db.tasks, db.tasks[t].path);
    }
  }

  /** The exact condition of every end of a fan-out. */
  lemma OutcomeExactly(db: Db, app: Option<AppId>, r: Request)
    requires TargetOk(db, app, r)
    ensures var outcome := FanOut(db, app, r).1;
      && (outcome == MediaMismatch <==> !r.compatible)
      && (outcome == NoTracks <==> r.compatible && !db.jobs[r.job].ripped)
      && (outcome == TemplateError <==> r.compatible && db.jobs[r.job].ripped && r.resolved.None?)
      && (outcome == NoOutputs <==> r.compatible && db.jobs[r.job].ripped && r.resolved == Some([]))
    ensures HasPaths(db, r) ==>
      var outcome, paths := FanOut(db, app, r).1, r.resolved.value;
      var collides := Collides(db.tasks, r.onDisk, paths);
      && (outcome == Collisions <==> collides && (!r.overwrite || OthersTask(db, paths, r.job)))
      && (outcome == StillRunning <==> collides && r.overwrite && !OthersTask(db, paths, r.job) && OwnRunning(db, paths, r.job))
      && (outcome.FannedOut? <==> !collides || (r.overwrite && !OthersTask(db, paths, r.job) && !OwnRunning(db, paths, r.job)))
  {
    if HasPaths(db, r) {
      FlaggedMeans(db, r);
      RunningMeans(db, r);
    }
  }

  /** The job's own task is at a path the request collides at. */
  predicate Displaced(db: Db, r: Request, t: TaskId)
    requires t in db.tasks && r.resolved.Some?
  {
    Own(db, t, r.job) && Colliding(db.tasks, r.onDisk, r.resolved.value, db.tasks[t].path)
  }

  /** The application had such a task and no other. */
  predicate LeftEmpty(db: Db, r: Request, a: AppId)
    requires r.resolved.Some?
  {
    && (exists t | t in db.tasks :: db.tasks[t].app == a && Displaced(db, r, t))
    && (forall t | t in db.tasks && db.tasks[t].app == a :: Displaced(db, r, t))
  }

  /** A fan-out that succeeds takes exactly the job's own tasks at colliding paths away, and exactly the
      applications that leaves empty; every other task stays as it was. */
  lemma DisplacedExactly(db: Db, app: Option<AppId>, r: Request)
    requires Inv(db) && TargetOk(db, app, r) && FanOut(db, app, r).1.FannedOut?
    ensures r.resolved.Some?
    ensures var after := FanOut(db, app, r).0;
      && (forall t | t in db.tasks :: t in after.tasks <==> !Displaced(db, r, t))
      && (forall t | t in db.tasks && t in after.tasks :: after.tasks[t] == db.tasks[t])
      && (forall a | a in db.apps :: a in after.apps <==> !LeftEmpty(db, r, a))
  {
    FanOutInserts(db, app, r);
    RunningMeans(db, r);
    FlaggedMeans(db, r);
    forall t | t in db.tasks
      ensures t in FanOut(db, app, r).0.tasks <==> !Displaced(db, r, t)
      ensures t in FanOut(db, app, r).0.tasks ==> FanOut(db, app, r).0.tasks[t] == db.tasks[t]
    {
      KeptTask(db, app, r, t);
    }
    forall a | a in db.apps ensures a in FanOut(db, app, r).0.apps <==> !LeftEmpty(db, r, a) {
      KeptApp(db, app, r, a);
    }
  }

  lemma KeptTask(db: Db, app: Option<AppId>, r: Request, t: TaskId)
    requires Inv(db) && TargetOk(db, app, r) && FanOut(db, app, r).1.FannedOut? && r.resolved.Some? && t in db.tasks
    requires var flagged := Flagged(db.tasks, r.resolved.value, r.onDisk); flagged == {} || !RunningAt(db, flagged, r.job)
    ensures t in FanOut(db, app, r).0.tasks <==> !Displaced(db, r, t)
    ensures t in FanOut(db, app, r).0.tasks ==> FanOut(db, app, r).0.tasks[t] == db.tasks[t]
  {
    FanOutInserts(db, app, r);
    DisplacedIsEvictable(db, r, t);
    FlaggedMeans(db, r);
    var ready := Ready(db, app, r);
    ReadyOk(db, app, r);
    InsertKeepsOld(ready, Target(db, app), r.resolved.value);
  }

  lemma DisplacedIsEvictable(db: Db, r: Request, t: TaskId)
    requires r.resolved.Some? && t in db.tasks
    requires var flagged := Flagged(db.tasks, r.resolved.value, r.onDisk); flagged == {} || !RunningAt(db, flagged, r.job)
    ensures Evictable(db, db.tasks[t], Flagged(db.tasks, r.resolved.value, r.onDisk), r.job) <==> Displaced(db, r, t)
  {
    FlaggedMeans(db, r);
  }

  lemma EmptiedIsLeftEmpty(db: Db, r: Request, a: AppId)
    requires r.resolved.Some?
    requires var flagged := Flagged(db.tasks, r.resolved.value, r.onDisk); flagged == {} || !RunningAt(db, flagged, r.job)
    ensures Emptied(db, a, Flagged(db.tasks, r.resolved.value, r.onDisk), r.job) <==> LeftEmpty(db, r, a)
  {
    forall t | t in db.tasks
      ensures Evictable(db, db.tasks[t], Flagged(db.tasks, r.resolved.value, r.onDisk), r.job) <==> Displaced(db, r, t)
    {
      DisplacedIsEvictable(db, r, t);
    }
  }

  lemma InsertKeepsOld(db: Db, a: AppId, paths: seq<string>)
    requires IdsOk(db)
    ensures var after := Insert(db, a, paths);
      && after.apps.Keys == db.apps.Keys
      && forall t | t < db.nextTask :: (t in after.tasks <==> t in db.tasks) && (t in db.tasks ==> after.tasks[t] == db.tasks[t])
  {
  }

  lemma KeptApp(db: Db, app: Option<AppId>, r: Request, a: AppId)
    requires Inv(db) && TargetOk(db, app, r) && FanOut(db, app, r).1.FannedOut? && r.resolved.Some? && a in db.apps
    requires var flagged := Flagged(db.tasks, r.resolved.value, r.onDisk); flagged == {} || !RunningAt(db, flagged, r.job)
    ensures a in FanOut(db, app, r).0.apps <==> !LeftEmpty(db, r, a)
  {
    FanOutInserts(db, app, r);
    EmptiedIsLeftEmpty(db, r, a);
    FlaggedMeans(db, r);
    var ready := Ready(db, app, r);
    ReadyOk(db, app, r);
    InsertKeepsOld(ready, Target(db, app), r.resolved.value);
  }

  /** What a refused fan-out leaves: an application waits for the rip or for outputs, unless one already waited
      or was given; the other refusals change nothing. */
  lemma RefusalLeaves(db: Db, app: Option<AppId>, r: Request)
    requires TargetOk(db, app, r) && !FanOut(db, app, r).1.FannedOut?
    ensures var (after, outcome) := FanOut(db, app, r);
      after == if app.None? && (outcome == NoOutputs || (outcome == NoTracks && App(r.job, r.session, Waiting) !in db.apps.Values))
        then db.(apps := db.apps[db.nextApp := App(r.job, r.session, Waiting)], nextApp := db.nextApp + 1)
        else db
  {
    assert HasParked(db, r.job, r.session) <==> App(r.job, r.session, Waiting) in db.apps.Values;
  }

  /** An apply makes tasks if and only if the media fit, the job is ripped, its paths are there and differ, and
      none of them is taken, or the apply overwrites and every live task at them is the job's own and not
      running. */
  lemma ApplyMakesTasks(db: Db, r: Request)
    requires Inv(db)
    ensures (exists t :: t in Step(db, Apply(r)).tasks && t !in db.tasks) <==>
      && r.job in db.jobs && HasPaths(db, r) && Distinct(r.resolved.value)
      && (!Collides(db.tasks, r.onDisk, r.resolved.value)
          || (r.overwrite && !OthersTask(db, r.resolved.value, r.job) && !OwnRunning(db, r.resolved.value, r.job)))
  {
    if r.job in db.jobs {
      OutcomeExactly(db, None, r);
      FanOutIndex(db, None, r);
      FannedOutTasks(db, None, r);
      if FanOut(db, None, r).1.FannedOut? {
        var after := FanOut(db, None, r).0;
        assert db.nextTask + 0 in after.tasks && db.nextTask !in db.tasks;
        if !r.overwrite { FlaggedMeans(db, r); UnflaggedAreDistinct(db, r); }
      }
    }
  }
}
