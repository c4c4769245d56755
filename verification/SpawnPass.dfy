/** One `spawn_pending` pass: passthrough moves and container starts over the queue, with its commits and
    rollbacks on one database session. */
module SpawnPass {
  import opened Options

  type TaskId = nat
  type GpuId = nat

  const SCAN_LIMIT: nat := 50

  datatype Status = Queued | InProgress | Done | Failed
  datatype Task = Task(status: Status, attempts: nat)

  /** The task rows, and each GPU row's claimant. */
  datatype Rows = Rows(tasks: map<TaskId, Task>, gpus: map<GpuId, Option<TaskId>>)

  /** What one pass reads before its loop. */
  datatype Config = Config(cap: int, inProgress: nat, enabled: bool, docker: bool, hostOk: bool, maxAttempts: nat)

  datatype Assignment = Spawn(gpu: Option<GpuId>) | Wait | Refuse

  /** How the steps of one turn outside this process end. */
  datatype MoveEnd = RaisesEarly | RaisesLate | GoneMeanwhile | Ends(ok: bool)
  datatype SpawnEnd = Starts | CommitFails | Raises
  datatype World = World(passthrough: bool, move: MoveEnd, assignment: Assignment, spawn: SpawnEnd, releaseFails: bool, writeFails: bool)

  /** `Aborted`: the commit that releases a failed claim raised, which ends the pass. */
  datatype Action = Skipped | Held | Waiting | Moved | Refused | Started | StartedUncommitted | NotStarted | Aborted(launched: bool)

  /** The turn has started a container. */
  predicate Launches(a: Action) {
    a == Started || a == StartedUncommitted || a == Aborted(true)
  }

  /** The counters of the loop. */
  datatype Counters = Counters(spawned: nat, examined: nat)

  /** The claim only ever picks a free row of its select. */
  predicate Sound(rows: Rows, w: World) {
    w.assignment.Spawn? && w.assignment.gpu.Some? ==>
      w.assignment.gpu.value in rows.gpus && rows.gpus[w.assignment.gpu.value].None?
  }

  predicate Claimable(rows: Rows, t: TaskId) {
    t in rows.tasks && rows.tasks[t].status == Queued
  }

  function WithTask(rows: Rows, t: TaskId, task: Task): Rows {
    rows.(tasks := rows.tasks[t := task])
  }

  function MoveEffect(rows: Rows, t: TaskId, end: MoveEnd): Rows
    requires t in rows.tasks
  {
    var running := Task(InProgress, rows.tasks[t].attempts + 1);
    match end
    case RaisesEarly => rows
    case RaisesLate => WithTask(rows, t, running)
    case GoneMeanwhile => rows.(tasks := rows.tasks - {t})
    case Ends(ok) => WithTask(rows, t, running.(status := if ok then Done else Failed))
  }

  function CountedFailure(task: Task, maxAttempts: nat): Task {
    Task(if task.attempts + 1 >= maxAttempts then Failed else Queued, task.attempts + 1)
  }

  /** One turn: the committed rows after it, what it did, and the counters. */
  function Effect(rows: Rows, cfg: Config, n: Counters, t: TaskId, w: World): (Rows, Action, Counters) {
    if !Claimable(rows, t) then (rows, Skipped, n)
    else if w.passthrough then (MoveEffect(rows, t, w.move), Moved, n)
    else if n.examined >= SCAN_LIMIT then (rows, Skipped, n)
    else
      var seen := n.(examined := n.examined + 1);
      if !cfg.enabled || !cfg.docker then (rows, Held, seen)
      else if cfg.cap - cfg.inProgress - n.spawned <= 0 then (rows, Waiting, seen)
      else if !cfg.hostOk then (rows, Held, seen)
      else
        match w.assignment
        case Wait => (rows, Waiting, seen)
        case Refuse => (if w.writeFails then rows else WithTask(rows, t, rows.tasks[t].(status := Failed)), Refused, seen)
        case Spawn(gpu) =>
          var tried := if w.spawn.Raises? then seen else seen.(spawned := n.spawned + 1);
          if w.spawn.Starts? then
            (if gpu.Some? then rows.(gpus := rows.gpus[gpu.value := Some(t)]) else rows, Started, tried)
          else if gpu.Some? && w.releaseFails then (rows, Aborted(w.spawn.CommitFails?), tried)
          else if w.spawn.CommitFails? then (rows, StartedUncommitted, tried)
          else (if w.writeFails then rows else WithTask(rows, t, CountedFailure(rows.tasks[t], cfg.maxAttempts)), NotStarted, tried)
  }

  // ----- the turn, with its session ------------------------------------------------------------

  class Session {
    var committed: Rows
    var pending: Rows      // the session's own view: committed rows plus its uncommitted writes
    var claimed: set<GpuId>
    var spawned: nat
    var examined: nat

    constructor (rows: Rows)
      ensures Clean() && committed == rows && spawned == 0 && examined == 0
    {
      committed, pending, claimed, spawned, examined := rows, rows, {}, 0, 0;
    }

    /** Nothing uncommitted, no claim known only to this process. */
    ghost predicate Clean()
      reads this
    {
      pending == committed && claimed == {}
    }

    method Commit()
      modifies this`committed
      ensures committed == pending
    {
      committed := pending;
    }

    method Rollback()
      modifies this`pending
      ensures pending == committed
    {
      pending := committed;
    }

    /** `execute_passthrough_task` and the guard around it. */
    method Move(t: TaskId, end: MoveEnd)
      requires Clean() && t in committed.tasks
      modifies this`committed, this`pending
      ensures Clean() && committed == MoveEffect(old(committed), t, end)
    {
      pending := WithTask(pending, t, Task(InProgress, pending.tasks[t].attempts + 1));
      match end
      case RaisesEarly => Rollback();
      case RaisesLate => Commit(); Rollback();
      case GoneMeanwhile =>
        Commit();
        committed := committed.(tasks := committed.tasks - {t});
        Rollback();
        assert committed.tasks == old(committed).tasks - {t};
      case Ends(ok) =>
        Commit();
        pending := WithTask(pending, t, pending.tasks[t].(status := if ok then Done else Failed));
        Commit();
    }

    /** Claim, start, commit; on a failure roll back, release the claim and count the attempt. When the commit
        of the release raises, the exception leaves the pass and the session is dropped. */
    method Start(t: TaskId, gpu: Option<GpuId>, end: SpawnEnd, releaseFails: bool, writeFails: bool, maxAttempts: nat) returns (aborted: bool)
      requires Clean() && t in committed.tasks
      requires gpu.Some? ==> gpu.value in committed.gpus && committed.gpus[gpu.value].None?
      modifies this`committed, this`pending, this`claimed, this`spawned
      ensures Clean()
      ensures aborted <==> !end.Starts? && gpu.Some? && releaseFails
      ensures spawned == old(spawned) + if end.Raises? then 0 else 1
      ensures committed ==
        if end.Starts? then (if gpu.Some? then old(committed).(gpus := old(committed).gpus[gpu.value := Some(t)]) else old(committed))
        else if end.Raises? && !aborted && !writeFails then
          WithTask(old(committed), t, CountedFailure(old(committed).tasks[t], maxAttempts))
        else old(committed)
    {
      aborted := false;
      if gpu.Some? {
        pending := pending.(gpus := pending.gpus[gpu.value := Some(t)]);
        claimed := claimed + {gpu.value};
      }
      if !end.Raises? { spawned := spawned + 1; }
      if end.Starts? {
        Commit();
      } else {
        Rollback();
        if gpu.Some? {
          pending := pending.(gpus := pending.gpus[gpu.value := None]);
          if releaseFails { aborted := true; Rollback(); } else { Commit(); }
          assert committed.gpus == old(committed).gpus;
        }
        if end.Raises? && !aborted {
          pending := WithTask(pending, t, CountedFailure(pending.tasks[t], maxAttempts));
          if writeFails { Rollback(); } else { Commit(); }
        }
      }
      if gpu.Some? { claimed := claimed - {gpu.value}; }
    }

    /** One iteration of the loop. */
    method TakeTurn(cfg: Config, t: TaskId, w: World) returns (action: Action)
      requires Clean() && Sound(committed, w)
      modifies this
      ensures Clean()
      ensures (committed, action, Counters(spawned, examined)) == Effect(old(committed), cfg, Counters(old(spawned), old(examined)), t, w)
    {
      if !Claimable(pending, t) { return Skipped; }
      if w.passthrough {
        Move(t, w.move);
        return Moved;
      }
      if examined >= SCAN_LIMIT { return Skipped; }
      examined := examined + 1;
      if !cfg.enabled { return Held; }
      if !cfg.docker { return Held; }
      if cfg.cap - cfg.inProgress - spawned <= 0 { return Waiting; }
      if !cfg.hostOk { return Held; }
      match w.assignment
      case Wait => return Waiting;
      case Refuse =>
        pending := WithTask(pending, t, pending.tasks[t].(status := Failed));
        if w.writeFails { Rollback(); } else { Commit(); }
        return Refused;
      case Spawn(gpu) =>
        var aborted := Start(t, gpu, w.spawn, w.releaseFails, w.writeFails, cfg.maxAttempts);
        if aborted { return Aborted(w.spawn.CommitFails?); }
        return match w.spawn case Starts => Started case CommitFails => StartedUncommitted case Raises => NotStarted;
    }
  }

  // ----- the pass ------------------------------------------------------------------------------

  /** One recorded turn: the rows its reload saw, the world it met, and what it left. */
  datatype Turn = Turn(task: TaskId, before: Rows, n: Counters, world: World, after: Rows, action: Action, m: Counters)

  /** What others commit before turn `i`. */
  type Others = (nat, Rows) -> Rows

  /** What turn `i` meets, given the rows. */
  type Meets = (nat, Rows) -> World

  predicate TurnOk(u: Turn, cfg: Config) {
    Effect(u.before, cfg, u.n, u.task, u.world) == (u.after, u.action, u.m) && Sound(u.before, u.world)
  }

  /** The rows and the counters after some turns. */
  function Left(trace: seq<Turn>, start: Rows): Rows {
    if trace == [] then start else trace[|trace| - 1].after
  }

  function Counted(trace: seq<Turn>): Counters {
    if trace == [] then Counters(0, 0) else trace[|trace| - 1].m
  }

  /** The last turn raised out of the pass. */
  predicate Ended(trace: seq<Turn>) {
    trace != [] && trace[|trace| - 1].action.Aborted?
  }

  /** The turns of a pass over `queue`, up to one that aborts it, each seeing what the one before committed and
      others changed since. */
  predicate IsPass(trace: seq<Turn>, cfg: Config, queue: seq<TaskId>, start: Rows, others: Others, meets: Meets)
    decreases |trace|
  {
    && |trace| <= |queue| && (|trace| < |queue| ==> Ended(trace))
    && (trace == [] ||
        var k := |trace| - 1;
        && !Ended(trace[..k]) && IsPass(trace[..k], cfg, queue[..k], start, others, meets)
        && TurnOk(trace[k], cfg) && trace[k].task == queue[k]
        && trace[k].before == others(k, Left(trace[..k], start))
        && trace[k].world == meets(k, trace[k].before)
        && trace[k].n == Counted(trace[..k]))
  }

  function Starts(trace: seq<Turn>): nat {
    if trace == [] then 0
    else Starts(trace[..|trace| - 1]) + if Launches(trace[|trace| - 1].action) then 1 else 0
  }

  function Slots(cfg: Config): nat {
    if cfg.cap > cfg.inProgress then cfg.cap - cfg.inProgress else 0
  }

  /** `spawn_pending`. */
  method SpawnPending(db: Session, cfg: Config, queue: seq<TaskId>, others: Others, meets: Meets) returns (spawned: nat, ghost trace: seq<Turn>)
    requires db.Clean() && db.spawned == 0 && db.examined == 0
    requires forall i: nat, rows: Rows :: Sound(rows, meets(i, rows))
    modifies db
    ensures db.Clean() && IsPass(trace, cfg, queue, old(db.committed), others, meets)
    ensures db.committed == Left(trace, old(db.committed))
    ensures spawned == Starts(trace) <= Slots(cfg)
  {
    trace := [];
    for i := 0 to |queue|
      invariant db.Clean() && !Ended(trace) && IsPass(trace, cfg, queue[..i], old(db.committed), others, meets)
      invariant db.committed == Left(trace, old(db.committed)) && Counters(db.spawned, db.examined) == Counted(trace)
    {
      db.committed := others(i, db.committed);
      db.Rollback();
      ghost var before, n := db.committed, Counters(db.spawned, db.examined);
      var world := meets(i, db.committed);
      var action := db.TakeTurn(cfg, queue[i], world);
      ghost var turn := Turn(queue[i], before, n, world, db.committed, action, Counters(db.spawned, db.examined));
      PassGrows(trace, turn, cfg, queue, i, old(db.committed), others, meets);
      trace := trace + [turn];
      if action.Aborted? {
        PassOfMore(trace, cfg, queue[..i + 1], queue, old(db.committed), others, meets);
        PassBounds(trace, cfg, queue, old(db.committed), others, meets);
        return db.spawned, trace;
      }
    }
    spawned := db.spawned;
    assert queue[..|queue|] == queue;
    PassBounds(trace, cfg, queue, old(db.committed), others, meets);
  }

  lemma PassGrows(trace: seq<Turn>, turn: Turn, cfg: Config, queue: seq<TaskId>, i: nat, start: Rows, others: Others, meets: Meets)
    requires i < |queue| && IsPass(trace, cfg, queue[..i], start, others, meets) && !Ended(trace) && TurnOk(turn, cfg)
    requires turn.task == queue[i] && turn.before == others(i, Left(trace, start)) && turn.world == meets(i, turn.before)
    requires turn.n == Counted(trace)
    ensures IsPass(trace + [turn], cfg, queue[..i + 1], start, others, meets)
    ensures Starts(trace + [turn]) == Starts(trace) + if Launches(turn.action) then 1 else 0
  {
    assert (trace + [turn])[..i] == trace && queue[..i + 1][..i] == queue[..i] && queue[..i + 1][i] == queue[i];
  }

  /** An aborted pass does not depend on the rest of the queue. */
  lemma PassOfMore(trace: seq<Turn>, cfg: Config, front: seq<TaskId>, queue: seq<TaskId>, start: Rows, others: Others, meets: Meets)
    requires IsPass(trace, cfg, front, start, others, meets) && front <= queue && Ended(trace)
    ensures IsPass(trace, cfg, queue, start, others, meets)
  {
    assert front[..|trace| - 1] == queue[..|trace| - 1];
  }

  // ----- what a pass guarantees ----------------------------------------------------------------

  /** At most the free slots are started, and at most the scan limit of encode tasks is examined. */
  lemma {:induction false} PassBounds(trace: seq<Turn>, cfg: Config, queue: seq<TaskId>, start: Rows, others: Others, meets: Meets)
    requires IsPass(trace, cfg, queue, start, others, meets)
    ensures Starts(trace) <= Slots(cfg)
    ensures Counted(trace).spawned == Starts(trace) && Counted(trace).examined <= SCAN_LIMIT
    decreases |trace|
  {
    if trace != [] {
      var before := trace[..|trace| - 1];
      PassBounds(before, cfg, queue[..|trace| - 1], start, others, meets);
    }
  }

  /** Every queued task gets its turn: a passthrough task that is still queued then is moved, however many
      encode tasks come before it; a container is only tried for a queued encode task while encoding is
      enabled and the host can; a task that is held, waits or is skipped leaves everything as it is. */
  lemma {:induction false} EveryTaskGetsItsTurn(trace: seq<Turn>, cfg: Config, queue: seq<TaskId>, start: Rows, others: Others, meets: Meets, i: nat)
    requires IsPass(trace, cfg, queue, start, others, meets) && i < |trace|
    ensures |trace| == |queue| || trace[|trace| - 1].action.Aborted?
    ensures trace[i].task == queue[i] && TurnOk(trace[i], cfg)
    ensures trace[i].action == Moved <==> Claimable(trace[i].before, queue[i]) && trace[i].world.passthrough
    ensures Launches(trace[i].action) || trace[i].action in {NotStarted, Aborted(false)} ==>
      Claimable(trace[i].before, queue[i]) && !trace[i].world.passthrough && cfg.enabled && cfg.docker && cfg.hostOk
    ensures trace[i].action in {Held, Waiting, Skipped} || trace[i].action.Aborted? ==> trace[i].after == trace[i].before
    decreases |trace|
  {
    var k := |trace| - 1;
    if i < k { EveryTaskGetsItsTurn(trace[..k], cfg, queue[..k], start, others, meets, i); }
  }

  // ----- what one turn does, from what it meets ----------------------------------------------------

  /** The task is queued still, wants a container, and the scan limit is not reached. */
  predicate Examined(u: Turn) {
    && u.task in u.before.tasks && u.before.tasks[u.task].status == Queued
    && !u.world.passthrough && u.n.examined < 50
  }

  /** A slot is left: the cap is above the tasks in progress and the containers this pass has started. */
  predicate SlotLeft(u: Turn, cfg: Config) {
    cfg.inProgress + u.n.spawned < cfg.cap
  }

  /** Nothing holds the task back from a claim. */
  predicate Tried(u: Turn, cfg: Config) {
    Examined(u) && cfg.enabled && cfg.docker && SlotLeft(u, cfg) && cfg.hostOk
  }

  /** The claim is released again, and the commit of that raises. */
  predicate ReleaseRaises(w: World) {
    w.assignment.Spawn? && w.assignment.gpu.Some? && w.releaseFails
  }

  /** Exactly when a turn takes each of its ends. */
  lemma TurnExactly(u: Turn, cfg: Config)
    requires TurnOk(u, cfg)
    ensures u.action == Moved <==> u.task in u.before.tasks && u.before.tasks[u.task].status == Queued && u.world.passthrough
    ensures u.action == Skipped <==> !Examined(u) && u.action != Moved
    ensures u.action == Held <==> Examined(u) && (!cfg.enabled || !cfg.docker || (SlotLeft(u, cfg) && !cfg.hostOk))
    ensures u.action == Waiting <==>
      Examined(u) && cfg.enabled && cfg.docker && (!SlotLeft(u, cfg) || (cfg.hostOk && u.world.assignment == Wait))
    ensures u.action == Refused <==> Tried(u, cfg) && u.world.assignment == Refuse
    ensures u.action == Started <==> Tried(u, cfg) && u.world.assignment.Spawn? && u.world.spawn == SpawnEnd.Starts
    ensures u.action == StartedUncommitted <==>
      Tried(u, cfg) && u.world.assignment.Spawn? && u.world.spawn == CommitFails && !ReleaseRaises(u.world)
    ensures u.action == NotStarted <==>
      Tried(u, cfg) && u.world.assignment.Spawn? && u.world.spawn == Raises && !ReleaseRaises(u.world)
    ensures u.action.Aborted? <==> Tried(u, cfg) && ReleaseRaises(u.world) && u.world.spawn != SpawnEnd.Starts
    ensures u.m.examined == u.n.examined + (if Examined(u) then 1 else 0)
    ensures u.m.spawned == u.n.spawned + (if Launches(u.action) then 1 else 0)
  {
  }

  /** What the turn leaves of its task: moved, it is running, done or failed as the move ended, one attempt more;
      refused, it failed; not started, it has one attempt more and failed when that was the last; else the row is
      as it was. A started container's device is claimed, and no other claim changes. */
  lemma TurnLeaves(u: Turn, cfg: Config)
    requires TurnOk(u, cfg)
    ensures u.action == Moved ==> MovedAs(u.before.tasks[u.task], u.after, u.task, u.world.move)
    ensures u.action == Refused && !u.world.writeFails ==>
      u.after.tasks == u.before.tasks[u.task := Task(Failed, u.before.tasks[u.task].attempts)]
    ensures u.action == NotStarted && !u.world.writeFails ==>
      var attempts := u.before.tasks[u.task].attempts + 1;
      u.after.tasks == u.before.tasks[u.task := Task(if attempts < cfg.maxAttempts then Queued else Failed, attempts)]
    ensures u.action !in {Moved, Refused, NotStarted} || (u.action != Moved && u.world.writeFails) ==> u.after.tasks == u.before.tasks
    ensures u.after.gpus ==
      if u.action == Started && u.world.assignment.gpu.Some? then u.before.gpus[u.world.assignment.gpu.value := Some(u.task)]
      else u.before.gpus
  {
  }

  /** A task that was moved: gone when it was deleted meanwhile, untouched when the claim raised, still running
      when what followed raised, else done exactly when the move succeeded. */
  predicate MovedAs(was: Task, after: Rows, t: TaskId, end: MoveEnd) {
    match end
    case GoneMeanwhile => t !in after.tasks
    case RaisesEarly => t in after.tasks && after.tasks[t] == was
    case RaisesLate => t in after.tasks && after.tasks[t] == Task(InProgress, was.attempts + 1)
    case Ends(ok) =>
      && t in after.tasks && after.tasks[t].attempts == was.attempts + 1
      && (ok <==> after.tasks[t].status == Done) && (!ok <==> after.tasks[t].status == Failed)
  }

  /** A turn writes no other task's row, drops no claim, and makes one only for the container it started. */
  lemma TurnKeepsOthers(u: Turn, cfg: Config)
    requires TurnOk(u, cfg)
    ensures forall t | t != u.task :: t in u.after.tasks <==> t in u.before.tasks
    ensures forall t | t != u.task && t in u.before.tasks :: u.after.tasks[t] == u.before.tasks[t]
    ensures u.after.gpus.Keys == u.before.gpus.Keys
    ensures forall g | g in u.before.gpus && u.before.gpus[g].Some? :: u.after.gpus[g] == u.before.gpus[g]
    ensures forall g | g in u.before.gpus && u.after.gpus[g] != u.before.gpus[g] ::
      u.action == Started && u.world.assignment == Spawn(Some(g)) && u.after.gpus[g] == Some(u.task)
  {
  }

  /** A claim committed in a pass is still committed at its end, whatever the later turns run into, unless
      somebody else releases it. */
  lemma {:induction false} ClaimOutlivesFailures(trace: seq<Turn>, cfg: Config, queue: seq<TaskId>, start: Rows, others: Others, meets: Meets,
      i: nat, g: GpuId)
    requires IsPass(trace, cfg, queue, start, others, meets) && i < |trace|
    requires trace[i].action == Started && trace[i].world.assignment == Spawn(Some(g))
    requires forall k: nat, rows: Rows :: g in rows.gpus ==> g in others(k, rows).gpus && others(k, rows).gpus[g] == rows.gpus[g]
    ensures var final := trace[|trace| - 1].after; g in final.gpus && final.gpus[g] == Some(queue[i])
    decreases |trace|
  {
    var last := |trace| - 1;
    TurnKeepsOthers(trace[last], cfg);
    if i < last {
      var before := trace[..last];
      ClaimOutlivesFailures(before, cfg, queue[..last], start, others, meets, i, g);
    }
  }
}
