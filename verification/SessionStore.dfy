/** The loops behind a fan-out, over one database session: finding collisions, evicting, inserting,
    putting failed tasks back, sweeping. Each is proved against the transaction it is part of. */
module SessionStore {
  import opened Options
  import opened Pipeline
  import opened PipelineGuarantees
  import opened PipelineSettling

  datatype Reason = ExistingTask | OnDisk | DuplicateInRequest
  datatype Collision = Collision(path: string, reason: Reason, owner: Option<JobId>)

  predicate Reported(collisions: seq<Collision>, p: string) {
    exists i | 0 <= i < |collisions| :: collisions[i].path == p
  }

  predicate ReportedOnce(collisions: seq<Collision>) {
    forall i, j | 0 <= i < j < |collisions| :: collisions[i].path != collisions[j].path
  }

  /** One collision says the truth about its path. */
  predicate Truthful(db: Db, onDisk: set<string>, c: Collision) {
    match c.reason
    case ExistingTask =>
      c.owner.Some? && exists t | t in db.tasks ::
        OwnsPath(db.tasks[t]) && db.tasks[t].path == c.path && OwnedBy(db, db.tasks[t], c.owner.value)
    case OnDisk => c.owner.None? && !LiveAt(db.tasks, c.path) && c.path in onDisk
    case DuplicateInRequest => c.owner.None? && !LiveAt(db.tasks, c.path) && c.path !in onDisk
  }

  predicate AllTruthful(db: Db, onDisk: set<string>, collisions: seq<Collision>) {
    forall i | 0 <= i < |collisions| :: Truthful(db, onDisk, collisions[i])
  }

  /** Taken by a live task or by a file. */
  predicate Hit(tasks: Tasks, onDisk: set<string>, p: string) { LiveAt(tasks, p) || p in onDisk }

  /** `p` appears before `q` first does. */
  predicate AppearsBefore(paths: seq<string>, p: string, q: string) {
    exists i | 0 <= i < |paths| :: paths[i] == p && q !in paths[..i + 1]
  }

  predicate RepeatsBefore(paths: seq<string>, p: string, q: string) {
    exists i | 0 <= i <= |paths| :: RepeatsUpTo(paths, i, p) && !RepeatsUpTo(paths, i, q)
  }

  predicate RepeatsUpTo(paths: seq<string>, i: nat, p: string)
    requires i <= |paths|
  {
    Repeats(paths[..i], p)
  }

  /** The order of a report: taken paths as they first appear, then the others as they repeat. */
  predicate Ahead(tasks: Tasks, onDisk: set<string>, paths: seq<string>, p: string, q: string) {
    if Hit(tasks, onDisk, p) then !Hit(tasks, onDisk, q) || AppearsBefore(paths, p, q)
    else !Hit(tasks, onDisk, q) && RepeatsBefore(paths, p, q)
  }

  predicate InOrder(tasks: Tasks, onDisk: set<string>, paths: seq<string>, collisions: seq<Collision>) {
    forall i, j | 0 <= i < j < |collisions| :: Ahead(tasks, onDisk, paths, collisions[i].path, collisions[j].path)
  }

  lemma TakenLast(tasks: Tasks, onDisk: set<string>, paths: seq<string>, was: seq<Collision>, c: Collision, i: nat)
    requires i < |paths| && c.path == paths[i] && c.path !in paths[..i] && InOrder(tasks, onDisk, paths, was)
    requires forall p :: Reported(was, p) <==> p in paths[..i] && Hit(tasks, onDisk, p)
    ensures InOrder(tasks, onDisk, paths, was + [c])
  {
    forall k | 0 <= k < |was| ensures Ahead(tasks, onDisk, paths, was[k].path, c.path) {
      assert Reported(was, was[k].path);
      var at :| 0 <= at < i && paths[..i][at] == was[k].path;
      assert c.path !in paths[..at + 1] by { assert forall m | 0 <= m <= at :: paths[..at + 1][m] == paths[..i][m]; }
      assert paths[at] == was[k].path;
    }
  }

  lemma RepeatedLast(tasks: Tasks, onDisk: set<string>, paths: seq<string>, was: seq<Collision>, c: Collision, i: nat)
    requires i < |paths| && c.path in paths && !Hit(tasks, onDisk, c.path) && !Repeats(paths[..i], c.path)
    requires InOrder(tasks, onDisk, paths, was)
    requires forall p :: Reported(was, p) ==> Hit(tasks, onDisk, p) || Repeats(paths[..i], p)
    ensures InOrder(tasks, onDisk, paths, was + [c])
  {
    forall k | 0 <= k < |was| ensures Ahead(tasks, onDisk, paths, was[k].path, c.path) {
      assert Reported(was, was[k].path);
      assert Hit(tasks, onDisk, was[k].path) || RepeatsUpTo(paths, i, was[k].path);
      assert !RepeatsUpTo(paths, i, c.path);
    }
  }

  function OrphansIn(db: Db, aged: set<AppId>): set<AppId> {
    set a | a in aged && Orphaned(db, a)
  }

  predicate Foreign(c: Collision, job: JobId) {
    c.reason == ExistingTask && c.owner != Some(job)
  }

  /** With at most one live task a path, a foreign task shows as a foreign collision, and only so. */
  lemma ForeignShows(db: Db, paths: seq<string>, onDisk: set<string>, collisions: seq<Collision>, job: JobId)
    requires Inv(db) && AllTruthful(db, onDisk, collisions)
    requires forall p :: Reported(collisions, p) <==> p in Flagged(db.tasks, paths, onDisk)
    ensures ForeignAt(db, paths, job) <==> exists i | 0 <= i < |collisions| :: Foreign(collisions[i], job)
  {
    if ForeignAt(db, paths, job) {
      var t :| t in db.tasks && OwnsPath(db.tasks[t]) && db.tasks[t].path in paths && !OwnedBy(db, db.tasks[t], job);
      var p := db.tasks[t].path;
      assert LiveAt(db.tasks, p) && p in Flagged(db.tasks, paths, onDisk);
      assert Reported(collisions, p);
      var i :| 0 <= i < |collisions| && collisions[i].path == p;
      assert Truthful(db, onDisk, collisions[i]);
      assert Foreign(collisions[i], job);
    }
    if i :| 0 <= i < |collisions| && Foreign(collisions[i], job) {
      var c := collisions[i];
      assert Truthful(db, onDisk, c) && Reported(collisions, c.path);
      var t :| t in db.tasks && OwnsPath(db.tasks[t]) && db.tasks[t].path == c.path && OwnedBy(db, db.tasks[t], c.owner.value);
      assert c.path in paths && !OwnedBy(db, db.tasks[t], job);
    }
  }

  class Store {
    var jobs: Jobs
    var apps: Apps
    var tasks: Tasks
    var nextApp: AppId
    var nextTask: TaskId
    const limit: nat

    constructor (db: Db)
      ensures Rows() == db
    {
      jobs, apps, tasks, nextApp, nextTask, limit := db.jobs, db.apps, db.tasks, db.nextApp, db.nextTask, db.limit;
    }

    function Rows(): Db
      reads this
    {
      Db(jobs, apps, tasks, nextApp, nextTask, limit)
    }

    /** `find_collisions`: each path that is taken, on disk or repeated is reported once, for the first
        reason of the three that holds; the taken ones first, as they first appear, then the others as they
        repeat. */
    method FindCollisions(paths: seq<string>, onDisk: set<string>) returns (collisions: seq<Collision>)
      requires Inv(Rows())
      ensures forall p :: Reported(collisions, p) <==> p in Flagged(tasks, paths, onDisk)
      ensures ReportedOnce(collisions) && AllTruthful(Rows(), onDisk, collisions) && InOrder(tasks, onDisk, paths, collisions)
    {
      collisions := FindTaken(paths, onDisk);
      collisions := AddRepeated(paths, onDisk, collisions);
      assert paths[..|paths|] == paths;
    }

    method FindTaken(paths: seq<string>, onDisk: set<string>) returns (collisions: seq<Collision>)
      requires Inv(Rows())
      ensures forall p :: Reported(collisions, p) <==> p in paths && Hit(tasks, onDisk, p)
      ensures ReportedOnce(collisions) && AllTruthful(Rows(), onDisk, collisions) && InOrder(tasks, onDisk, paths, collisions)
    {
      collisions := [];
      var seen: set<string> := {};
      for i := 0 to |paths|
        invariant forall p :: p in seen <==> p in paths[..i]
        invariant forall p :: Reported(collisions, p) <==> p in paths[..i] && Hit(tasks, onDisk, p)
        invariant ReportedOnce(collisions) && AllTruthful(Rows(), onDisk, collisions) && InOrder(tasks, onDisk, paths, collisions)
      {
        var path := paths[i];
        assert paths[..i + 1] == paths[..i] + [path];
        if path !in seen {
          seen := seen + {path};
          if LiveAt(tasks, path) {
            var t :| t in tasks && OwnsPath(tasks[t]) && tasks[t].path == path;
            assert TaskOk(Rows(), tasks[t]);
            ghost var was := collisions;
            collisions := collisions + [Collision(path, ExistingTask, Some(apps[tasks[t].app].job))];
            ReportsMore(was, collisions[|was|]);
            TakenLast(tasks, onDisk, paths, was, collisions[|was|], i);
          } else if path in onDisk {
            ghost var was := collisions;
            collisions := collisions + [Collision(path, OnDisk, None)];
            ReportsMore(was, collisions[|was|]);
            TakenLast(tasks, onDisk, paths, was, collisions[|was|], i);
          }
        }
      }
      assert paths[..|paths|] == paths;
    }

    method AddRepeated(paths: seq<string>, onDisk: set<string>, taken: seq<Collision>) returns (collisions: seq<Collision>)
      requires forall p :: Reported(taken, p) <==> p in paths && Hit(tasks, onDisk, p)
      requires ReportedOnce(taken) && AllTruthful(Rows(), onDisk, taken) && InOrder(tasks, onDisk, paths, taken)
      ensures forall p :: Reported(collisions, p) <==> p in Flagged(tasks, paths, onDisk)
      ensures ReportedOnce(collisions) && AllTruthful(Rows(), onDisk, collisions) && InOrder(tasks, onDisk, paths, collisions)
    {
      collisions := taken;
      var again: set<string> := {};
      for i := 0 to |paths|
        invariant forall p :: p in again <==> p in paths[..i]
        invariant forall p :: Reported(collisions, p) <==> ReportedBy(paths, onDisk, i, p)
        invariant ReportedOnce(collisions) && AllTruthful(Rows(), onDisk, collisions) && InOrder(tasks, onDisk, paths, collisions)
      {
        var path := paths[i];
        assert paths[..i + 1] == paths[..i] + [path];
        RepeatsGrow(paths, i);
        if path in again && !Reported(collisions, path) {
          ghost var was := collisions;
          collisions := collisions + [Collision(path, DuplicateInRequest, None)];
          ReportsMore(was, collisions[|was|]);
          RepeatedLast(tasks, onDisk, paths, was, collisions[|was|], i);
        }
        again := again + {path};
      }
      assert paths[..|paths|] == paths;
    }

    /** `_evict_colliding_tasks`: refuses when an own task at the paths is running, else deletes the own
        tasks there and the applications that empties. */
    method EvictCollidingTasks(paths: set<string>, job: JobId) returns (ok: bool)
      requires Inv(Rows())
      modifies this
      ensures ok <==> !RunningAt(old(Rows()), paths, job)
      ensures Rows() == if ok then Evict(old(Rows()), paths, job) else old(Rows())
    {
      ghost var before := Rows();
      if RunningAt(Rows(), paths, job) { return false; }
      var rows := set t | t in tasks && Evictable(Rows(), tasks[t], paths, job);
      var affected := set t | t in rows :: tasks[t].app;
      DeleteTasks(rows);
      DropEmptied(affected);
      EvictedRows(before, paths, job, rows, affected, apps);
      return true;
    }

    method DeleteTasks(rows: set<TaskId>)
      modifies this
      ensures Rows() == old(Rows()).(tasks := old(tasks) - rows)
    {
      ghost var was := tasks;
      var left := rows;
      assert was - (rows - left) == was;
      while left != {}
        invariant left <= rows && tasks == was - (rows - left)
        invariant Rows() == old(Rows()).(tasks := tasks)
        decreases |left|
      {
        var t :| t in left;
        OneTaskLess(was, rows, left, t);
        tasks := tasks - {t};
        left := left - {t};
      }
      assert rows - left == rows;
    }

    method DropEmptied(affected: set<AppId>)
      modifies this
      ensures apps.Keys <= old(apps).Keys && Rows() == old(Rows()).(apps := apps)
      ensures forall a | a in old(apps) :: a in apps <==> !(a in affected && TasksOf(tasks, a) == {})
      ensures forall a | a in apps :: apps[a] == old(apps)[a]
    {
      ghost var before := Rows();
      var todo := affected;
      while todo != {}
        invariant todo <= affected && apps.Keys <= before.apps.Keys && Rows() == before.(apps := apps)
        invariant forall a | a in before.apps :: a in apps <==> a in todo || !(a in affected && TasksOf(tasks, a) == {})
        invariant forall a | a in apps :: apps[a] == before.apps[a]
        decreases |todo|
      {
        var a :| a in todo;
        if TasksOf(tasks, a) == {} { apps := apps - {a}; }
        todo := todo - {a};
      }
    }

    /** `_fan_out_tasks_for_application`. */
    method FanOutTasks(app: Option<AppId>, r: Request) returns (outcome: Outcome)
      requires Inv(Rows()) && TargetOk(Rows(), app, r)
      modifies this
      ensures (Rows(), outcome) == FanOut(old(Rows()), app, r)
    {
      if !r.compatible { return MediaMismatch; }
      if !jobs[r.job].ripped {
        if app.None? && !HasParked(Rows(), r.job, r.session) { var a := Create(r.job, r.session, Waiting); }
        return NoTracks;
      }
      if r.resolved.None? { return TemplateError; }
      var paths := r.resolved.value;
      if paths == [] {
        if app.None? { var a := Create(r.job, r.session, Waiting); }
        return NoOutputs;
      }
      var collisions := FindCollisions(paths, r.onDisk);
      ghost var flagged := Flagged(tasks, paths, r.onDisk);
      ForeignShows(Rows(), paths, r.onDisk, collisions, r.job);
      var target := if app.Some? then app.value else nextApp;
      if collisions != [] {
        assert Reported(collisions, collisions[0].path);
        if !r.overwrite || exists i | 0 <= i < |collisions| :: Foreign(collisions[i], r.job) { return Collisions; }
        var own := set i | 0 <= i < |collisions| :: collisions[i].path;
        OwnPaths(collisions, own, flagged);
        var ok := EvictCollidingTasks(own, r.job);
        if !ok { return StillRunning; }
      } else {
        assert flagged == {} by { assert forall p :: !Reported(collisions, p); }
      }
      if app.None? { target := Create(r.job, r.session, Pending); }
      InsertTasks(target, paths);
      return FannedOut(target);
    }

    method Create(job: JobId, session: nat, status: AppStatus) returns (a: AppId)
      modifies this
      ensures a == old(nextApp) && Rows() == AddApp(old(Rows()), job, session, status)
    {
      a := nextApp;
      apps := apps[a := App(job, session, status)];
      nextApp := nextApp + 1;
    }

    method InsertTasks(a: AppId, paths: seq<string>)
      modifies this
      ensures Rows() == Insert(old(Rows()), a, paths)
    {
      AddRows(a, paths);
      apps := SetStatus(apps, a, Pending);
    }

    method AddRows(a: AppId, paths: seq<string>)
      modifies this`tasks, this`nextTask
      ensures tasks == old(tasks) + NewTasks(old(nextTask), a, paths) && nextTask == old(nextTask) + |paths|
    {
      ghost var was, first := tasks, nextTask;
      NewTasksNone(was, first, a, paths);
      for i := 0 to |paths|
        invariant nextTask == first + i && tasks == was + NewTasks(first, a, paths[..i])
      {
        NewTasksGrow(was, first, a, paths, i);
        tasks := tasks[nextTask := Task(a, Queued, paths[i], 0, false)];
        nextTask := nextTask + 1;
      }
      assert paths[..|paths|] == paths;
    }

    /** `_retry_failed_tasks` on an application's tasks. */
    method RetryFailedTasks(a: AppId) returns (reset: nat)
      modifies this
      ensures Rows() == old(Rows()).(tasks := RequeueFailed(old(tasks), a))
      ensures reset == |set t | t in old(tasks) && old(tasks)[t].app == a && old(tasks)[t].status == Failed|
    {
      ghost var before := tasks;
      var failed := set t | t in tasks && tasks[t].app == a && tasks[t].status == Failed;
      var left := failed;
      reset := 0;
      while left != {}
        invariant left <= failed && reset + |left| == |failed|
        invariant Rows() == old(Rows()).(tasks := tasks) && tasks.Keys == before.Keys
        invariant forall t | t in tasks :: tasks[t] == if t in left then before[t] else Requeued(before[t], a)
        decreases |left|
      {
        var t :| t in left;
        tasks := tasks[t := tasks[t].(status := Queued, retried := true)];
        left := left - {t};
        reset := reset + 1;
      }
    }

    /** `sweep_stale_claims` over the rows its select returned. */
    method SweepStaleClaims(stale: seq<TaskId>)
      requires Inv(Rows())
      modifies this
      ensures Rows() == SweepStale(old(Rows()), stale)
    {
      ghost var before := Rows();
      for i := 0 to |stale|
        invariant Rows() == SweepStale(before, stale[..i]) && Inv(Rows())
      {
        assert stale[..i + 1][..i] == stale[..i] && stale[..i + 1][i] == stale[i];
        TaskStepKeepsInv(Rows(), stale[i], Stale);
        ResetOrFail(stale[i]);
      }
      assert stale[..|stale|] == stale;
    }

    /** One stale claim: back to the queue, or failed and its application settled. */
    method ResetOrFail(t: TaskId)
      requires Inv(Rows())
      modifies this
      ensures Rows() == TaskStep(old(Rows()), t, Stale)
    {
      StaleRow(Rows(), t);
      if t in tasks && tasks[t].status == InProgress {
        assert TaskOk(Rows(), tasks[t]);
        var a := tasks[t].app;
        if tasks[t].attempts >= limit {
          tasks := tasks[t := tasks[t].(status := Failed, retried := false)];
          apps := SetStatus(apps, a, Aggregate(tasks, a, apps[a].status));
        } else {
          tasks := tasks[t := tasks[t].(status := Queued, retried := false)];
          QueuedKeepsStatus(tasks, apps, a, t);
        }
      }
    }

    /** `sweep_orphaned_applications`, one candidate after the other. */
    method SweepOrphanedApplications(aged: set<AppId>) returns (acted: nat)
      modifies this
      ensures Rows() == SweepOrphans(old(Rows()), aged)
      ensures acted == |OrphansIn(old(Rows()), aged)|
    {
      ghost var before := Rows();
      var orphans := OrphansIn(Rows(), aged);
      var left := orphans;
      acted := 0;
      NoneSwept(before, aged);
      while left != {}
        invariant left <= orphans && acted + |left| == |orphans|
        invariant Rows() == SweepOrphans(before, aged - left)
        decreases |left|
      {
        var a :| a in left;
        SweepOne(before, aged, left, a);
        if TasksOf(tasks, a) != {} {
          apps := apps[a := apps[a].(status := Aggregate(tasks, a, apps[a].status))];
        } else {
          apps := apps[a := apps[a].(status := Broken)];
        }
        left := left - {a};
        acted := acted + 1;
      }
      assert aged - left == aged;
    }

    ghost predicate ReportedBy(paths: seq<string>, onDisk: set<string>, i: nat, p: string)
      requires i <= |paths|
      reads this
    {
      p in paths && (LiveAt(tasks, p) || p in onDisk || Repeats(paths[..i], p))
    }
  }

  lemma EmptiedMeans(db: Db, a: AppId, paths: set<string>, job: JobId, kept: Tasks, affected: set<AppId>)
    requires kept == KeptTasks(db, paths, job)
    requires affected == set t | t in db.tasks && Evictable(db, db.tasks[t], paths, job) :: db.tasks[t].app
    ensures Emptied(db, a, paths, job) <==> a in affected && TasksOf(kept, a) == {}
  {
    if a in affected && TasksOf(kept, a) == {} {
      forall t | t in db.tasks && db.tasks[t].app == a ensures Evictable(db, db.tasks[t], paths, job) {
        assert t !in TasksOf(kept, a);
      }
    }
  }

  lemma OwnPaths(collisions: seq<Collision>, own: set<string>, flagged: set<string>)
    requires own == set i | 0 <= i < |collisions| :: collisions[i].path
    requires forall p :: Reported(collisions, p) <==> p in flagged
    ensures own == flagged
  {
    forall p ensures p in own <==> p in flagged {
      assert p in own <==> Reported(collisions, p);
    }
  }

  lemma OneTaskLess(was: Tasks, rows: set<TaskId>, left: set<TaskId>, t: TaskId)
    requires t in left && left <= rows
    ensures was - (rows - left) - {t} == was - (rows - (left - {t}))
  {
  }

  lemma NoneSwept(db: Db, aged: set<AppId>)
    ensures SweepOrphans(db, aged - OrphansIn(db, aged)) == db
  {
    assert SweepOrphans(db, aged - OrphansIn(db, aged)).apps == db.apps;
  }

  lemma SweepOne(db: Db, aged: set<AppId>, left: set<AppId>, a: AppId)
    requires a in left && left <= OrphansIn(db, aged)
    ensures var apps, swept := SweepOrphans(db, aged - left).apps, SweptApp(db, a, aged);
      && a in db.apps && a in apps && apps[a] == db.apps[a]
      && SweepOrphans(db, aged - (left - {a})).apps == apps[a := swept]
      && swept == db.apps[a].(status := if TasksOf(db.tasks, a) != {} then Aggregate(db.tasks, a, db.apps[a].status) else Broken)
  {
    assert Orphaned(db, a);
  }

  lemma QueuedKeepsStatus(tasks: Tasks, apps: Apps, a: AppId, t: TaskId)
    requires t in tasks && tasks[t].app == a && tasks[t].status == Queued && a in apps
    ensures SetStatus(apps, a, Aggregate(tasks, a, apps[a].status)) == apps
  {
    assert t in TasksOf(tasks, a);
  }

  lemma NewTasksNone(was: Tasks, first: TaskId, a: AppId, paths: seq<string>)
    ensures was + NewTasks(first, a, paths[..0]) == was
  {
  }

  lemma NewTasksGrow(was: Tasks, first: TaskId, a: AppId, paths: seq<string>, i: nat)
    requires i < |paths|
    ensures was + NewTasks(first, a, paths[..i + 1])
         == (was + NewTasks(first, a, paths[..i]))[first + i := Task(a, Queued, paths[i], 0, false)]
  {
    forall t | first <= t < first + i ensures NewTask(first, a, paths[..i], t) == NewTask(first, a, paths[..i + 1], t) {
    }
    assert NewTask(first, a, paths[..i + 1], first + i) == Task(a, Queued, paths[i], 0, false);
  }

  lemma EvictedRows(db: Db, paths: set<string>, job: JobId, rows: set<TaskId>, affected: set<AppId>, apps: Apps)
    requires rows == set t | t in db.tasks && Evictable(db, db.tasks[t], paths, job)
    requires affected == set t | t in rows :: db.tasks[t].app
    requires apps.Keys <= db.apps.Keys && forall a | a in apps :: apps[a] == db.apps[a]
    requires forall a | a in db.apps :: a in apps <==> !(a in affected && TasksOf(db.tasks - rows, a) == {})
    ensures db.(tasks := db.tasks - rows, apps := apps) == Evict(db, paths, job)
  {
    assert db.tasks - rows == KeptTasks(db, paths, job);
    forall a | a in db.apps ensures a in apps <==> !Emptied(db, a, paths, job) {
      EmptiedMeans(db, a, paths, job, db.tasks - rows, affected);
    }
  }

  lemma ReportsMore(collisions: seq<Collision>, c: Collision)
    ensures forall p :: Reported(collisions + [c], p) <==> Reported(collisions, p) || p == c.path
  {
    var more := collisions + [c];
    assert more[|collisions|] == c;
    assert forall i | 0 <= i < |collisions| :: more[i] == collisions[i];
  }

  lemma RepeatsGrow(paths: seq<string>, i: nat)
    requires i < |paths|
    ensures forall p :: Repeats(paths[..i + 1], p) <==> Repeats(paths[..i], p) || (p == paths[i] && p in paths[..i])
  {
    var more := paths[..i + 1];
    assert more == paths[..i] + [paths[i]];
    forall p ensures Repeats(more, p) <==> Repeats(paths[..i], p) || (p == paths[i] && p in paths[..i]) {
      if Repeats(more, p) {
        var a, b :| 0 <= a < b < |more| && more[a] == p && more[b] == p;
        if b < i { assert Repeats(paths[..i], p); } else { assert paths[..i][a] == p; }
      }
      if Repeats(paths[..i], p) {
        var a, b :| 0 <= a < b < i && paths[..i][a] == p && paths[..i][b] == p;
        assert more[a] == p && more[b] == p;
      }
      if p == paths[i] && p in paths[..i] {
        var a :| 0 <= a < i && paths[..i][a] == p;
        assert more[a] == p && more[i] == p;
      }
    }
  }
}
