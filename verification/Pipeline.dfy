/** Session applications and their transcode tasks, from apply to settle.

    The state is what is committed: jobs, applications and task rows. An event is one transaction; an
    insert or update that breaks the partial unique index on the path of live tasks aborts it. */
module Pipeline {
  import opened Options

  type JobId = nat
  type AppId = nat
  type TaskId = nat

  datatype TaskStatus = Queued | InProgress | Done | Failed

  /** `retried`: the row was last changed by an operator or the auto-apply hook that put it back after it failed. */
  datatype Task = Task(app: AppId, status: TaskStatus, path: string, attempts: nat, retried: bool)

  datatype AppStatus = Waiting | Pending | Running | Completed | Partial | Broken | Cancelled
  datatype App = App(job: JobId, session: nat, status: AppStatus)

  /** `ripped`: the job is in a post-rip status. `wasRipped`: it has been in one. */
  datatype Job = Job(ripped: bool, wasRipped: bool)

  type Jobs = map<JobId, Job>
  type Apps = map<AppId, App>
  type Tasks = map<TaskId, Task>

  /** Row ids are ordered by creation, so the counters stand for the clock of the id generator. `limit` is
      the configured number of attempts. */
  datatype Db = Db(jobs: Jobs, apps: Apps, tasks: Tasks, nextApp: AppId, nextTask: TaskId, limit: nat)

  // ----- the index and the foreign keys ------------------------------------------------------

  /** `queued`, `in_progress` and `done` rows own their path. */
  predicate OwnsPath(task: Task) { task.status != Failed }

  predicate LiveAt(tasks: Tasks, p: string) {
    exists t | t in tasks :: OwnsPath(tasks[t]) && tasks[t].path == p
  }

  /** The partial unique index `uq_transcode_tasks_output_path_live`. */
  predicate UniquePaths(tasks: Tasks) {
    forall t, u | t in tasks && u in tasks && t != u && OwnsPath(tasks[t]) && OwnsPath(tasks[u]) :: tasks[t].path != tasks[u].path
  }

  /** A transaction takes effect as a whole, or not at all when the index refuses it. */
  function Commit(before: Db, after: Db): Db {
    if UniquePaths(after.tasks) then after else before
  }

  predicate TaskOk(db: Db, task: Task) {
    && task.app in db.apps
    && db.apps[task.app].status != Waiting
    && db.apps[task.app].job in db.jobs
    && db.jobs[db.apps[task.app].job].wasRipped
    && (task.status == Queued && !task.retried ==> task.attempts < db.limit)
  }

  predicate IdsOk(db: Db) {
    && db.limit >= 1
    && (forall t | t in db.tasks :: t < db.nextTask)
    && (forall a | a in db.apps :: a < db.nextApp)
  }

  predicate JobsOk(db: Db) {
    && (forall j | j in db.jobs && db.jobs[j].ripped :: db.jobs[j].wasRipped)
    && (forall a | a in db.apps :: db.apps[a].job in db.jobs)
  }

  predicate TasksOk(db: Db) {
    forall t | t in db.tasks :: TaskOk(db, db.tasks[t])
  }

  predicate Inv(db: Db) {
    IdsOk(db) && JobsOk(db) && TasksOk(db) && UniquePaths(db.tasks)
  }

  // ----- settling an application -------------------------------------------------------------

  predicate Terminal(s: TaskStatus) { s == Done || s == Failed }

  function TasksOf(tasks: Tasks, a: AppId): set<TaskId> {
    set t | t in tasks && tasks[t].app == a
  }

  /** `aggregate_session_application`: the status an application's task statuses call for. */
  function Aggregate(tasks: Tasks, a: AppId, current: AppStatus): AppStatus {
    var own := TasksOf(tasks, a);
    if own == {} || exists t | t in own :: !Terminal(tasks[t].status) then current
    else if forall t | t in own :: tasks[t].status == Done then Completed
    else if forall t | t in own :: tasks[t].status == Failed then Broken
    else Partial
  }

  function SetStatus(apps: Apps, a: AppId, s: AppStatus): Apps {
    map b | b in apps :: if b == a then apps[b].(status := s) else apps[b]
  }

  // ----- events on one task ------------------------------------------------------------------

  datatype TaskEvent =
    | Claim              // the container's /claim or the in-process claim
    | SpawnFailed        // _count_failed_spawn
    | Unrunnable         // _fail_queued_task
    | Stale              // sweep_stale_claims
    | Complete(path: string)
    | Fail
    | Retry

  /** The row after the event, or None when the event does not apply to it. */
  function NextRow(task: Task, e: TaskEvent, limit: nat): Option<Task> {
    match e
    case Claim =>
      if task.status == Queued then Some(task.(status := InProgress, attempts := task.attempts + 1, retried := false)) else None
    case SpawnFailed =>
      if task.status != Queued then None
      else if task.attempts + 1 >= limit then Some(task.(status := Failed, attempts := task.attempts + 1, retried := false))
      else Some(task.(attempts := task.attempts + 1, retried := false))
    case Unrunnable => if task.status == Queued then Some(task.(status := Failed, retried := false)) else None
    case Stale =>
      if task.status != InProgress then None
      else Some(task.(status := if task.attempts >= limit then Failed else Queued, retried := false))
    case Complete(path) => if task.status == InProgress then Some(task.(status := Done, path := path, retried := false)) else None
    case Fail => if task.status == InProgress then Some(task.(status := Failed, retried := false)) else None
    case Retry => if task.status == Failed then Some(task.(status := Queued, retried := true)) else None
  }

  /** A claim starts its application; an event that ends a task settles it. */
  function NextAppStatus(tasks: Tasks, a: AppId, e: TaskEvent, current: AppStatus): AppStatus {
    if e == Claim then (if current == Pending then Running else current)
    else if e == Retry then current
    else Aggregate(tasks, a, current)
  }

  function TaskStep(db: Db, t: TaskId, e: TaskEvent): Db {
    if t !in db.tasks || NextRow(db.tasks[t], e, db.limit).None? || db.tasks[t].app !in db.apps then db
    else
      var row := NextRow(db.tasks[t], e, db.limit).value;
      var tasks := db.tasks[t := row];
      var status := NextAppStatus(tasks, row.app, e, db.apps[row.app].status);
      Commit(db, db.(tasks := tasks, apps := SetStatus(db.apps, row.app, status)))
  }

  // ----- fan-out -----------------------------------------------------------------------------

  /** What one fan-out is given: the paths its tracks resolve to (None: the template fails), and which of
      them exist on disk. */
  datatype Request = Request(job: JobId, session: nat, compatible: bool, resolved: Option<seq<string>>,
                             onDisk: set<string>, overwrite: bool)

  datatype Outcome = MediaMismatch | NoTracks | NoOutputs | Collisions | TemplateError | StillRunning | FannedOut(app: AppId)

  predicate Repeats(paths: seq<string>, p: string) {
    exists i, j | 0 <= i < j < |paths| :: paths[i] == p && paths[j] == p
  }

  predicate Distinct(paths: seq<string>) {
    forall i, j | 0 <= i < j < |paths| :: paths[i] != paths[j]
  }

  /** The paths `find_collisions` reports. */
  function Flagged(tasks: Tasks, paths: seq<string>, onDisk: set<string>): set<string> {
    set p | p in paths && (LiveAt(tasks, p) || p in onDisk || Repeats(paths, p))
  }

  predicate OwnedBy(db: Db, task: Task, job: JobId) {
    task.app in db.apps && db.apps[task.app].job == job
  }

  predicate ForeignAt(db: Db, paths: seq<string>, job: JobId) {
    exists t | t in db.tasks :: OwnsPath(db.tasks[t]) && db.tasks[t].path in paths && !OwnedBy(db, db.tasks[t], job)
  }

  predicate RunningAt(db: Db, paths: set<string>, job: JobId) {
    exists t | t in db.tasks :: db.tasks[t].status == InProgress && db.tasks[t].path in paths && OwnedBy(db, db.tasks[t], job)
  }

  predicate Evictable(db: Db, task: Task, paths: set<string>, job: JobId) {
    task.path in paths && task.status != InProgress && OwnedBy(db, task, job)
  }

  function KeptTasks(db: Db, paths: set<string>, job: JobId): Tasks {
    map t | t in db.tasks && !Evictable(db, db.tasks[t], paths, job) :: db.tasks[t]
  }

  /** An application that loses a task and has none left. */
  predicate Emptied(db: Db, a: AppId, paths: set<string>, job: JobId) {
    && (exists t | t in db.tasks :: db.tasks[t].app == a && Evictable(db, db.tasks[t], paths, job))
    && (forall t | t in db.tasks && db.tasks[t].app == a :: Evictable(db, db.tasks[t], paths, job))
  }

  /** `_evict_colliding_tasks`, once no own task at the paths is running. */
  function Evict(db: Db, paths: set<string>, job: JobId): Db {
    db.(tasks := KeptTasks(db, paths, job),
        apps := map a | a in db.apps && !Emptied(db, a, paths, job) :: db.apps[a])
  }

  function AddApp(db: Db, job: JobId, session: nat, status: AppStatus): Db {
    db.(apps := db.apps[db.nextApp := App(job, session, status)], nextApp := db.nextApp + 1)
  }

  predicate HasParked(db: Db, job: JobId, session: nat) {
    exists a | a in db.apps :: db.apps[a] == App(job, session, Waiting)
  }

  function NewTask(first: TaskId, a: AppId, paths: seq<string>, t: TaskId): Task
    requires first <= t < first + |paths|
  {
    Task(a, Queued, paths[t - first], 0, false)
  }

  function NewTasks(first: TaskId, a: AppId, paths: seq<string>): Tasks {
    map t | first <= t < first + |paths| :: NewTask(first, a, paths, t)
  }

  /** One queued task for every path, under `a`. */
  function Insert(db: Db, a: AppId, paths: seq<string>): Db {
    db.(apps := SetStatus(db.apps, a, Pending), tasks := db.tasks + NewTasks(db.nextTask, a, paths), nextTask := db.nextTask + |paths|)
  }

  /** The application a fan-out fills: the parked one it was given, or a new one. */
  function Target(db: Db, app: Option<AppId>): AppId {
    if app.Some? then app.value else db.nextApp
  }

  function WithTarget(db: Db, app: Option<AppId>, r: Request, status: AppStatus): Db {
    if app.Some? then db else AddApp(db, r.job, r.session, status)
  }

  /** `_fan_out_tasks_for_application`, before its commit. */
  function FanOut(db: Db, app: Option<AppId>, r: Request): (result: (Db, Outcome))
    requires r.job in db.jobs
    ensures result.0.jobs == db.jobs
  {
    if !r.compatible then (db, MediaMismatch)
    else if !db.jobs[r.job].ripped then
      (if HasParked(db, r.job, r.session) then db else WithTarget(db, app, r, Waiting), NoTracks)
    else if r.resolved.None? then (db, TemplateError)
    else
      var paths := r.resolved.value;
      var flagged := Flagged(db.tasks, paths, r.onDisk);
      if paths == [] then (WithTarget(db, app, r, Waiting), NoOutputs)
      else if flagged != {} && (!r.overwrite || ForeignAt(db, paths, r.job)) then (db, Collisions)
      else if flagged != {} && RunningAt(db, flagged, r.job) then (db, StillRunning)
      else
        var cleared := if flagged != {} then Evict(db, flagged, r.job) else db;
        (Insert(WithTarget(cleared, app, r, Pending), Target(db, app), paths), FannedOut(Target(db, app)))
  }

  // ----- the other transactions ---------------------------------------------------------------

  /** A parked application at its turn in the drain; `held`: its session is gone, transcoding is off or its
      encoder has no device. */
  datatype Parked = Parked(app: AppId, held: bool, request: Request)

  datatype Turn = Held | Tried(outcome: Outcome)

  /** What the drain's select returned: waiting applications of one job, none twice. */
  predicate PlanOk(db: Db, job: JobId, plan: seq<Parked>) {
    && job in db.jobs
    && (forall i | 0 <= i < |plan| :: plan[i].app in db.apps && db.apps[plan[i].app].job == job && db.apps[plan[i].app].status == Waiting)
    && (forall i | 0 <= i < |plan| :: plan[i].request.job == job && !plan[i].request.overwrite)
    && (forall i, j | 0 <= i < j < |plan| :: plan[i].app != plan[j].app)
  }

  function DrainOne(db: Db, p: Parked): (Db, Turn)
    requires p.request.job in db.jobs
  {
    if p.held then (db, Held) else var (after, outcome) := FanOut(db, Some(p.app), p.request); (after, Tried(outcome))
  }

  /** `fan_out_waiting_identify_applications`: one session, its parked applications in order. */
  function Drain(db: Db, plan: seq<Parked>): (result: (Db, seq<Turn>))
    requires forall i | 0 <= i < |plan| :: plan[i].request.job in db.jobs
    ensures |result.1| == |plan| && result.0.jobs == db.jobs
    decreases |plan|
  {
    if plan == [] then (db, [])
    else
      var (first, turn) := DrainOne(db, plan[0]);
      var (rest, turns) := Drain(first, plan[1..]);
      (rest, [turn] + turns)
  }

  /** Before identity a repeated apply returns the parked application. */
  function Park(db: Db, job: JobId, session: nat): Db {
    if job !in db.jobs || HasParked(db, job, session) then db else AddApp(db, job, session, Waiting)
  }

  function Requeued(task: Task, a: AppId): Task {
    if task.app == a && task.status == Failed then task.(status := Queued, retried := true) else task
  }

  function RequeueFailed(tasks: Tasks, a: AppId): Tasks {
    map t | t in tasks :: Requeued(tasks[t], a)
  }

  /** The auto-apply hook on an application that exists: its failed tasks go back to the queue. */
  function AutoRetry(db: Db, a: AppId): Db {
    if a !in db.apps || !(exists t | t in db.tasks :: db.tasks[t].app == a && db.tasks[t].status == Failed) then db
    else
      var reopened := db.apps[a].status in {Broken, Partial, Completed};
      Commit(db, db.(tasks := RequeueFailed(db.tasks, a), apps := if reopened then SetStatus(db.apps, a, Running) else db.apps))
  }

  function CancelledApp(app: App, job: JobId): App {
    if app.job == job && app.status == Waiting then app.(status := Cancelled) else app
  }

  function CancelParked(db: Db, job: JobId): Db {
    db.(apps := map a | a in db.apps :: CancelledApp(db.apps[a], job))
  }

  predicate HasLive(tasks: Tasks, a: AppId) {
    exists t | t in tasks :: tasks[t].app == a && !Terminal(tasks[t].status)
  }

  predicate Orphaned(db: Db, a: AppId) {
    a in db.apps && db.apps[a].status in {Pending, Running} && !HasLive(db.tasks, a)
  }

  function SweptApp(db: Db, a: AppId, aged: set<AppId>): App
    requires a in db.apps
  {
    if !(a in aged && Orphaned(db, a)) then db.apps[a]
    else if TasksOf(db.tasks, a) == {} then db.apps[a].(status := Broken)
    else db.apps[a].(status := Aggregate(db.tasks, a, db.apps[a].status))
  }

  /** `sweep_orphaned_applications`; `aged` are the applications past the grace window. */
  function SweepOrphans(db: Db, aged: set<AppId>): Db {
    db.(apps := map a | a in db.apps :: SweptApp(db, a, aged))
  }

  /** Deleting rows takes what references them along. */
  function WithoutApps(db: Db, gone: set<AppId>): Db {
    db.(apps := map a | a in db.apps && a !in gone :: db.apps[a],
        tasks := map t | t in db.tasks && db.tasks[t].app !in gone :: db.tasks[t])
  }

  function AppsOf(db: Db, job: JobId): set<AppId> {
    set a | a in db.apps && db.apps[a].job == job
  }

  datatype JobEvent = NewJob | RipDone | RipAgain | DeleteJob

  function JobStep(db: Db, j: JobId, e: JobEvent): Db {
    match e
    case NewJob => if j in db.jobs then db else db.(jobs := db.jobs[j := Job(false, false)])
    case RipDone => if j in db.jobs then db.(jobs := db.jobs[j := Job(true, true)]) else db
    case RipAgain => if j in db.jobs then db.(jobs := db.jobs[j := db.jobs[j].(ripped := false)]) else db
    case DeleteJob => var rest := WithoutApps(db, AppsOf(db, j)); rest.(jobs := rest.jobs - {j})
  }

  datatype Event =
    | OnTask(task: TaskId, what: TaskEvent)
    | DeleteTask(task: TaskId)
    | Apply(request: Request)
    | ParkApp(job: JobId, session: nat)
    | RetryApp(app: AppId)
    | DrainJob(job: JobId, plan: seq<Parked>)
    | CancelApps(job: JobId)
    | Sweep(aged: set<AppId>)
    | DeleteApp(app: AppId)
    | OnJob(job: JobId, event: JobEvent)

  function Step(db: Db, e: Event): Db {
    match e
    case OnTask(t, what) => TaskStep(db, t, what)
    case DeleteTask(t) => db.(tasks := db.tasks - {t})
    case Apply(r) => if r.job in db.jobs then Commit(db, FanOut(db, None, r).0) else db
    case ParkApp(job, session) => Park(db, job, session)
    case RetryApp(a) => AutoRetry(db, a)
    case DrainJob(job, plan) => if PlanOk(db, job, plan) then Commit(db, Drain(db, plan).0) else db
    case CancelApps(job) => CancelParked(db, job)
    case Sweep(aged) => SweepOrphans(db, aged)
    case DeleteApp(a) => WithoutApps(db, {a})
    case OnJob(j, event) => JobStep(db, j, event)
  }

  /** The database after a sequence of transactions, the last one last. */
  function Run(db: Db, es: seq<Event>): Db {
    if es == [] then db else Step(Run(db, es[..|es| - 1]), es[|es| - 1])
  }

  function EmptyDb(limit: nat): Db { Db(map[], map[], map[], 0, 0, limit) }

  // ----- what a fan-out keeps ----------------------------------------------------------------

  lemma NothingLiveAtFreePaths(db: Db, r: Request)
    requires Inv(db) && r.resolved.Some?
    requires var flagged := Flagged(db.tasks, r.resolved.value, r.onDisk);
      flagged != {} ==> !ForeignAt(db, r.resolved.value, r.job) && !RunningAt(db, flagged, r.job)
    ensures var flagged := Flagged(db.tasks, r.resolved.value, r.onDisk);
      var cleared := if flagged != {} then Evict(db, flagged, r.job) else db;
      forall t | t in cleared.tasks && OwnsPath(cleared.tasks[t]) :: cleared.tasks[t].path !in r.resolved.value
  {
    var paths := r.resolved.value;
    var flagged := Flagged(db.tasks, paths, r.onDisk);
    var cleared := if flagged != {} then Evict(db, flagged, r.job) else db;
    forall t | t in cleared.tasks && OwnsPath(cleared.tasks[t]) ensures cleared.tasks[t].path !in paths {
      var task := db.tasks[t];
      assert task.path in paths ==> LiveAt(db.tasks, task.path) && task.path in flagged;
    }
  }

  lemma EvictKeepsInv(db: Db, paths: set<string>, job: JobId)
    requires Inv(db)
    ensures Inv(Evict(db, paths, job))
  {
    var after := Evict(db, paths, job);
    forall t | t in after.tasks ensures TaskOk(after, after.tasks[t]) {
      assert TaskOk(db, db.tasks[t]);
    }
  }

  lemma WithTargetKeepsInv(db: Db, app: Option<AppId>, r: Request, status: AppStatus)
    requires Inv(db) && r.job in db.jobs
    ensures Inv(WithTarget(db, app, r, status))
  {
    var after := WithTarget(db, app, r, status);
    forall t | t in after.tasks ensures TaskOk(after, after.tasks[t]) {
      assert TaskOk(db, db.tasks[t]);
    }
  }

  lemma InsertedRows(db: Db, a: AppId, paths: seq<string>)
    ensures var tasks := Insert(db, a, paths).tasks;
      forall i | 0 <= i < |paths| :: db.nextTask + i in tasks && tasks[db.nextTask + i] == Task(a, Queued, paths[i], 0, false)
  {
    var tasks := Insert(db, a, paths).tasks;
    forall i | 0 <= i < |paths|
      ensures db.nextTask + i in tasks && tasks[db.nextTask + i] == Task(a, Queued, paths[i], 0, false)
    {
      assert NewTask(db.nextTask, a, paths, db.nextTask + i) == Task(a, Queued, paths[i], 0, false);
    }
  }

  /** Inserting at paths no live task owns meets the index exactly when the paths are distinct. */
  lemma InsertIndex(db: Db, a: AppId, paths: seq<string>)
    requires Inv(db)
    requires forall t | t in db.tasks && OwnsPath(db.tasks[t]) :: db.tasks[t].path !in paths
    ensures UniquePaths(Insert(db, a, paths).tasks) <==> Distinct(paths)
  {
    var tasks := Insert(db, a, paths).tasks;
    if !Distinct(paths) {
      InsertedRows(db, a, paths);
      var i, j :| 0 <= i < j < |paths| && paths[i] == paths[j];
      assert tasks[db.nextTask + i].path == tasks[db.nextTask + j].path;
    } else {
      forall t, u | t in tasks && u in tasks && t != u && OwnsPath(tasks[t]) && OwnsPath(tasks[u])
        ensures tasks[t].path != tasks[u].path
      {
        NewOrOld(db, a, paths, t);
        NewOrOld(db, a, paths, u);
      }
    }
  }

  lemma NewOrOld(db: Db, a: AppId, paths: seq<string>, t: TaskId)
    requires IdsOk(db) && t in Insert(db, a, paths).tasks
    ensures var tasks := Insert(db, a, paths).tasks;
      if t < db.nextTask then t in db.tasks && tasks[t] == db.tasks[t]
      else t < db.nextTask + |paths| && tasks[t] == Task(a, Queued, paths[t - db.nextTask], 0, false)
  {
  }

  lemma InsertKeepsRows(db: Db, a: AppId, paths: seq<string>)
    requires Inv(db) && a in db.apps && db.jobs[db.apps[a].job].ripped
    ensures var after := Insert(db, a, paths); IdsOk(after) && JobsOk(after) && TasksOk(after)
  {
    var after := Insert(db, a, paths);
    forall t | t in after.tasks ensures TaskOk(after, after.tasks[t]) {
      if t in db.tasks { assert TaskOk(db, db.tasks[t]); }
    }
  }
}
