/** Spawn passes one after the other: containers that were started but have not claimed their task yet are not
    counted as in progress, and a second start of their task meets their name. */
module SpawnTicks {
  import opened Options
  import opened SpawnPass

  /** `containers`: the tasks with a container of their name. `n`, `cfg`: of the pass under way. `tries`: the
      failed starts counted for each task; `late`: how often it was put back with no attempts left. */
  datatype State = State(rows: Rows, containers: set<TaskId>, cfg: Config, n: Counters, tries: multiset<TaskId>, late: multiset<TaskId>)

  datatype Event =
    | Tick(enabled: bool, docker: bool, hostOk: bool)
    | Take(task: TaskId, world: World)
    | Add(task: TaskId)
    | Claim(task: TaskId)              // the container claims its task
    | Settle(task: TaskId, ok: bool)
    | Stale(task: TaskId)              // sweep_stale_claims
    | Retry(task: TaskId)              // an operator or the automatic apply puts a failed task back
    | Delete(task: TaskId)
    | Exit(task: TaskId)               // the container ends and is removed

  function InProgressIn(rows: Rows): set<TaskId> {
    set t | t in rows.tasks && rows.tasks[t].status == InProgress
  }

  /** Containers whose task no pass counts as in progress. */
  function Unclaimed(s: State): set<TaskId> {
    s.containers - InProgressIn(s.rows)
  }

  /** A start under a name that is taken raises. */
  function Met(s: State, t: TaskId, w: World): World {
    if t in s.containers then w.(spawn := Raises) else w
  }

  function StatusTo(s: State, t: TaskId, from: Status, task: Task): State {
    if t in s.rows.tasks && s.rows.tasks[t].status == from then s.(rows := WithTask(s.rows, t, task)) else s
  }

  function AttemptsOf(s: State, t: TaskId): nat {
    if t in s.rows.tasks then s.rows.tasks[t].attempts else 0
  }

  function TurnStep(s: State, t: TaskId, w: World): State {
    var (rows, action, n) := Effect(s.rows, s.cfg, s.n, t, Met(s, t, w));
    s.(rows := rows, n := n,
       containers := if Launches(action) then s.containers + {t} else s.containers,
       tries := if action == NotStarted && rows != s.rows then s.tries + multiset{t} else s.tries)
  }

  function Step(s: State, e: Event): State {
    match e
    case Tick(enabled, docker, hostOk) =>
      s.(cfg := s.cfg.(enabled := enabled, docker := docker, hostOk := hostOk, inProgress := |InProgressIn(s.rows)|), n := Counters(0, 0))
    case Take(t, w) => TurnStep(s, t, w)
    case Add(t) => if t in s.rows.tasks then s else s.(rows := WithTask(s.rows, t, Task(Queued, 0)), tries := s.tries[t := 0], late := s.late[t := 0])
    case Claim(t) => if t in s.containers then StatusTo(s, t, Queued, Task(InProgress, AttemptsOf(s, t) + 1)) else s
    case Settle(t, ok) => StatusTo(s, t, InProgress, Task(if ok then Done else Failed, AttemptsOf(s, t)))
    case Stale(t) =>
      StatusTo(s, t, InProgress, Task(if AttemptsOf(s, t) >= s.cfg.maxAttempts then Failed else Queued, AttemptsOf(s, t)))
    case Retry(t) =>
      var back := StatusTo(s, t, Failed, Task(Queued, AttemptsOf(s, t)));
      if Late(s, e, t) then back.(late := s.late + multiset{t}) else back
    case Delete(t) => s.(rows := s.rows.(tasks := s.rows.tasks - {t}))
    case Exit(t) => s.(containers := s.containers - {t})
  }

  /** The event puts the task back although it has no attempts left. */
  predicate Late(s: State, e: Event, t: TaskId) {
    e == Retry(t) && t in s.rows.tasks && s.rows.tasks[t].status == Failed && s.rows.tasks[t].attempts >= s.cfg.maxAttempts
  }

  function Run(s: State, es: seq<Event>): State {
    if es == [] then s else Step(Run(s, es[..|es| - 1]), es[|es| - 1])
  }

  function Init(cap: int, maxAttempts: nat): State {
    State(Rows(map[], map[]), {}, Config(cap, 0, false, false, false, maxAttempts), Counters(0, 0), multiset{}, multiset{})
  }

  // ----- how many containers -----------------------------------------------------------------------------

  lemma {:induction false} FewerThan<T>(a: set<T>, b: set<T>)
    requires a <= b
    ensures |a| <= |b|
  {
    if a != {} {
      var x :| x in a;
      FewerThan(a - {x}, b - {x});
    }
  }

  /** A turn adds at most the container it counts, and counts no more than the free slots. */
  lemma TurnCounts(s: State, t: TaskId, w: World)
    ensures var after := TurnStep(s, t, w);
      && |after.containers| <= |s.containers| + (after.n.spawned - s.n.spawned)
      && s.n.spawned <= after.n.spawned && (s.n.spawned <= Slots(s.cfg) ==> after.n.spawned <= Slots(s.cfg))
  {
  }

  lemma StepCounts(s: State, e: Event)
    requires !e.Tick?
    ensures var after := Step(s, e);
      && after.cfg == s.cfg && |after.containers| <= |s.containers| + (after.n.spawned - s.n.spawned)
      && s.n.spawned <= after.n.spawned && (s.n.spawned <= Slots(s.cfg) ==> after.n.spawned <= Slots(s.cfg))
  {
    match e
    case Take(t, w) => TurnCounts(s, t, w);
    case Exit(t) => FewerThan(s.containers - {t}, s.containers);
    case _ =>
  }

  /** Between two ticks no more containers are added than there were free slots. */
  lemma {:induction false} WithinTick(s: State, es: seq<Event>)
    requires s.n.spawned <= Slots(s.cfg) && forall e | e in es :: !e.Tick?
    ensures var after := Run(s, es);
      && after.cfg == s.cfg && s.n.spawned <= after.n.spawned <= Slots(s.cfg)
      && |after.containers| <= |s.containers| + (after.n.spawned - s.n.spawned)
    decreases |es|
  {
    if es != [] {
      var front, e := es[..|es| - 1], es[|es| - 1];
      assert e in es;
      WithinTick(s, front);
      StepCounts(Run(s, front), e);
    }
  }

  /** From one tick to the next: no more containers than the cap (or the tasks in progress, if those are more),
      and one more for every container that had not claimed its task when the pass counted. */
  lemma ContainersWithinTick(s: State, tick: Event, es: seq<Event>)
    requires tick.Tick? && forall e | e in es :: !e.Tick?
    ensures var most := if s.cfg.cap > |InProgressIn(s.rows)| then s.cfg.cap else |InProgressIn(s.rows)|;
      |Run(Step(s, tick), es).containers| <= most + |Unclaimed(s)|
  {
    WithinTick(Step(s, tick), es);
    var claimed := s.containers * InProgressIn(s.rows);
    assert s.containers == claimed + Unclaimed(s);
    FewerThan(claimed, InProgressIn(s.rows));
  }

  /** Every tick finds the task of every container in progress. */
  predicate TicksAfterClaims(s: State, es: seq<Event>)
    decreases |es|
  {
    es == [] ||
      (TicksAfterClaims(s, es[..|es| - 1]) && (es[|es| - 1].Tick? ==> Unclaimed(Run(s, es[..|es| - 1])) == {}))
  }

  /** Then there are never more containers than the cap. */
  lemma {:induction false} CapHolds(cap: nat, maxAttempts: nat, es: seq<Event>)
    requires TicksAfterClaims(Init(cap, maxAttempts), es)
    ensures var after := Run(Init(cap, maxAttempts), es);
      && after.cfg.cap == cap && |after.containers| <= cap
      && |after.containers| + (Slots(after.cfg) - after.n.spawned) <= cap
      && after.n.spawned <= Slots(after.cfg)
    decreases |es|
  {
    if es != [] {
      var front, e := es[..|es| - 1], es[|es| - 1];
      CapHolds(cap, maxAttempts, front);
      var mid := Run(Init(cap, maxAttempts), front);
      if e.Tick? {
        assert mid.containers <= InProgressIn(mid.rows) by { assert Unclaimed(mid) == {}; }
        FewerThan(mid.containers, InProgressIn(mid.rows));
      } else {
        StepCounts(mid, e);
      }
    }
  }

  // ----- what a pass can reach -------------------------------------------------------------------------------

  /** The tasks a pass can still start a container for. */
  function Startable(s: State): set<TaskId> {
    set t | t in s.rows.tasks && s.rows.tasks[t].status == Queued && t !in s.containers
  }

  function Min(a: nat, b: nat): nat { if a < b then a else b }

  /** The most containers the turns of a pass can add. */
  function Most(s: State): nat {
    if s.cfg.enabled && s.cfg.docker && s.cfg.hostOk then Min(Min(Slots(s.cfg), SCAN_LIMIT), |Startable(s)|) else 0
  }

  predicate OnlyTakes(es: seq<Event>) { forall e | e in es :: e.Take? }

  predicate Overfull(s: State, es: seq<Event>) {
    OnlyTakes(es) && |Run(s, es).containers| > s.cfg.cap
  }

  lemma TakeAdds(s: State, t: TaskId, w: World)
    ensures var after := TurnStep(s, t, w);
      && after.cfg == s.cfg && Startable(after) <= Startable(s)
      && (after.containers == s.containers || (after.containers == s.containers + {t} && t in Startable(s)
            && s.cfg.enabled && s.cfg.docker && s.cfg.hostOk && after.n.examined <= SCAN_LIMIT
            && after.n.examined == s.n.examined + 1))
      && s.n.examined <= after.n.examined
  {
  }

  lemma {:induction false} TakesAdd(s: State, es: seq<Event>)
    requires OnlyTakes(es) && s.n == Counters(0, 0)
    ensures var after := Run(s, es);
      && after.cfg == s.cfg && Startable(after) <= Startable(s)
      && s.containers <= after.containers <= s.containers + Startable(s)
      && (after.containers == s.containers ||
            (s.cfg.enabled && s.cfg.docker && s.cfg.hostOk && |after.containers - s.containers| <= SCAN_LIMIT))
      && |after.containers - s.containers| <= after.n.examined
    decreases |es|
  {
    if es != [] {
      var front, e := es[..|es| - 1], es[|es| - 1];
      assert e in es;
      TakesAdd(s, front);
      var mid := Run(s, front);
      TakeAdds(mid, e.task, e.world);
      AddedOne(s.containers, mid.containers, e.task);
    }
  }

  lemma AddedOne(base: set<TaskId>, now: set<TaskId>, t: TaskId)
    ensures |now + {t} - base| <= |now - base| + 1
  {
    if t in now || t in base {
      assert now + {t} - base == now - base;
    } else {
      assert now + {t} - base == (now - base) + {t};
    }
  }

  lemma StartOne(s: State, t: TaskId)
    requires t in Startable(s) && s.cfg.enabled && s.cfg.docker && s.cfg.hostOk
    requires s.n.spawned < Slots(s.cfg) && s.n.examined < SCAN_LIMIT
    ensures TurnStep(s, t, Runs) == s.(containers := s.containers + {t}, n := Counters(s.n.spawned + 1, s.n.examined + 1))
  {
  }

  /** All of `todo` can be started, one turn each. */
  lemma {:induction false} StartAll(s: State, todo: set<TaskId>) returns (es: seq<Event>)
    requires s.n == Counters(0, 0) && s.cfg.enabled && s.cfg.docker && s.cfg.hostOk
    requires todo <= Startable(s) && |todo| <= Slots(s.cfg) && |todo| <= SCAN_LIMIT
    ensures OnlyTakes(es) && Run(s, es) == s.(containers := s.containers + todo, n := Counters(|todo|, |todo|))
    decreases |todo|
  {
    if todo == {} {
      es := [];
      assert s.containers + todo == s.containers;
    } else {
      var t :| t in todo;
      var rest := StartAll(s, todo - {t});
      es := rest + [Take(t, Runs)];
      assert es[..|es| - 1] == rest;
      StartOne(Run(s, rest), t);
      assert s.containers + (todo - {t}) + {t} == s.containers + todo;
    }
  }

  lemma {:induction false} SomeOf(all: set<TaskId>, n: nat) returns (some: set<TaskId>)
    requires n <= |all|
    ensures some <= all && |some| == n
    decreases |all|
  {
    if n == |all| { return all; }
    var x :| x in all;
    some := SomeOf(all - {x}, n);
  }

  /** Right after a tick has counted: the turns of its pass can bring the containers over the cap if and only if
      those there are and the most it can add are more than the cap. */
  lemma CanOverfill(s: State)
    requires s.n == Counters(0, 0)
    ensures (exists es :: Overfull(s, es)) <==> |s.containers| + Most(s) > s.cfg.cap
  {
    if es :| Overfull(s, es) { OverfullMeans(s, es); }
    if |s.containers| + Most(s) > s.cfg.cap {
      if Most(s) == 0 {
        assert Overfull(s, []);
      } else {
        var todo := SomeOf(Startable(s), Most(s));
        var es := StartAll(s, todo);
        assert s.containers !! todo;
        assert Overfull(s, es);
      }
    }
  }

  lemma OverfullMeans(s: State, es: seq<Event>)
    requires s.n == Counters(0, 0) && Overfull(s, es)
    ensures |s.containers| + Most(s) > s.cfg.cap
  {
    var after := Run(s, es);
    TakesAdd(s, es);
    WithinTick(s, es);
    assert after.containers == s.containers + (after.containers - s.containers);
    FewerThan(after.containers - s.containers, Startable(s));
  }

  // ----- the input that goes over the cap ------------------------------------------------------------------

  const Runs: World := World(false, RaisesEarly, Spawn(None), Starts, false, false)

  const Early: seq<Event> := [Add(0), Add(1), Tick(true, true, true), Take(0, Runs), Take(1, Runs), Tick(true, true, true), Take(0, Runs), Take(1, Runs)]

  lemma RunOnto(s: State, es: seq<Event>, n: nat)
    requires 0 < n <= |es|
    ensures es[..|es|] == es && es[..0] == []
    ensures Run(s, es[..n]) == Step(Run(s, es[..n - 1]), es[n - 1])
  {
    assert es[..n][..n - 1] == es[..n - 1];
  }

  function Two(attempts: nat): Rows {
    Rows(map[0 := Task(Queued, attempts), 1 := Task(Queued, 0)], map[])
  }

  function EarlyConfig(maxAttempts: nat): Config { Config(1, 0, true, true, true, maxAttempts) }

  /** Two tasks, cap one: the first tick starts the first task's container; the second tick, before it has
      claimed its task, fails that task's second start and starts the other task's container too. */
  lemma CapExceeded(maxAttempts: nat)
    requires maxAttempts >= 2
    ensures Run(Init(1, maxAttempts), Early) == State(Two(1), {0, 1}, EarlyConfig(maxAttempts), Counters(1, 2), multiset{0}, multiset{})
  {
    var init := Init(1, maxAttempts);
    RunOnto(init, Early, 1);
    RunOnto(init, Early, 2);
    RunOnto(init, Early, 3);
    assert Run(init, Early[..2]).rows == Two(0);
    var counted := State(Two(0), {}, EarlyConfig(maxAttempts), Counters(0, 0), multiset{}, multiset{});
    TickCounts(Run(init, Early[..2]), 0);
    assert Run(init, Early[..3]) == counted;
    FirstPass(maxAttempts);
    RunOnto(init, Early, 4);
    RunOnto(init, Early, 5);
    RunOnto(init, Early, 6);
    RunOnto(init, Early, 7);
    RunOnto(init, Early, 8);
    SecondPass(maxAttempts);
  }

  lemma TickCounts(s: State, attempts: nat)
    requires s.rows == Two(attempts)
    ensures InProgressIn(s.rows) == {}
  {
  }

  lemma FirstPass(maxAttempts: nat)
    ensures var counted := State(Two(0), {}, EarlyConfig(maxAttempts), Counters(0, 0), multiset{}, multiset{});
      Step(Step(counted, Take(0, Runs)), Take(1, Runs)) == State(Two(0), {0}, EarlyConfig(maxAttempts), Counters(1, 2), multiset{}, multiset{})
  {
  }

  lemma SecondPass(maxAttempts: nat)
    requires maxAttempts >= 2
    ensures var started := State(Two(0), {0}, EarlyConfig(maxAttempts), Counters(1, 2), multiset{}, multiset{});
      Step(Step(Step(started, Tick(true, true, true)), Take(0, Runs)), Take(1, Runs))
        == State(Two(1), {0, 1}, EarlyConfig(maxAttempts), Counters(1, 2), multiset{0}, multiset{})
  {
    var started := State(Two(0), {0}, EarlyConfig(maxAttempts), Counters(1, 2), multiset{}, multiset{});
    TickCounts(started, 0);
    var failed := Step(Step(started, Tick(true, true, true)), Take(0, Runs));
    assert failed.rows == Two(1);
    assert failed.tries == multiset{0};
  }

  // ----- attempts --------------------------------------------------------------------------------------------

  predicate TaskOk(s: State, t: TaskId)
    requires t in s.rows.tasks
  {
    var task := s.rows.tasks[t];
    && s.tries[t] <= task.attempts <= s.cfg.maxAttempts + s.late[t]
    && (task.status == Queued ==> task.attempts < s.cfg.maxAttempts + s.late[t])
  }

  lemma TurnKeepsTask(s: State, t: TaskId, w: World, u: TaskId)
    requires u in s.rows.tasks && TaskOk(s, u) && u in TurnStep(s, t, w).rows.tasks
    ensures TaskOk(TurnStep(s, t, w), u)
  {
  }

  lemma StepKeepsTask(s: State, e: Event, t: TaskId)
    requires t in s.rows.tasks && TaskOk(s, t) && t in Step(s, e).rows.tasks
    ensures TaskOk(Step(s, e), t)
  {
    if e.Take? { TurnKeepsTask(s, e.task, e.world, t); }
  }

  lemma AddedIsOk(s: State, e: Event, t: TaskId)
    requires s.cfg.maxAttempts >= 1 && t !in s.rows.tasks && t in Step(s, e).rows.tasks
    ensures TaskOk(Step(s, e), t)
  {
  }

  lemma {:induction false} TaskStaysOk(s: State, es: seq<Event>, t: TaskId)
    requires s.cfg.maxAttempts >= 1 && t !in s.rows.tasks && t in Run(s, es).rows.tasks
    ensures TaskOk(Run(s, es), t)
    decreases |es|
  {
    var front, e := es[..|es| - 1], es[|es| - 1];
    var mid := Run(s, front);
    KeepsMax(s, front);
    if t in mid.rows.tasks {
      TaskStaysOk(s, front, t);
      StepKeepsTask(mid, e, t);
    } else {
      AddedIsOk(mid, e, t);
    }
  }

  /** Over any number of passes: a task is attempted, failed starts included, at most as often as configured and
      once more for every time it was put back with no attempts left. */
  lemma AttemptsHold(cap: int, maxAttempts: nat, es: seq<Event>, t: TaskId)
    requires maxAttempts >= 1 && t in Run(Init(cap, maxAttempts), es).rows.tasks
    ensures var after := Run(Init(cap, maxAttempts), es);
      && after.tries[t] <= after.rows.tasks[t].attempts <= maxAttempts + after.late[t]
      && (after.rows.tasks[t].status == Queued ==> after.rows.tasks[t].attempts < maxAttempts + after.late[t])
  {
    KeepsMax(Init(cap, maxAttempts), es);
    TaskStaysOk(Init(cap, maxAttempts), es, t);
  }

  lemma {:induction false} KeepsMax(s: State, es: seq<Event>)
    ensures Run(s, es).cfg.maxAttempts == s.cfg.maxAttempts
    decreases |es|
  {
    if es != [] { KeepsMax(s, es[..|es| - 1]); }
  }

  // ----- when a queued task has no attempt left, and when one was made nevertheless ---------------------------

  function RowOf(s: State, t: TaskId): Option<Task> {
    if t in s.rows.tasks then Some(s.rows.tasks[t]) else None
  }

  /** The last change of the task's row put it back with no attempts left. */
  predicate PutBackLate(s: State, es: seq<Event>, t: TaskId)
    decreases |es|
  {
    es != [] &&
    var front, e := es[..|es| - 1], es[|es| - 1];
    Late(Run(s, front), e, t) || (RowOf(Run(s, es), t) == RowOf(Run(s, front), t) && PutBackLate(s, front, t))
  }

  predicate Spent(row: Option<Task>, maxAttempts: nat) {
    row.Some? && row.value.status == Queued && row.value.attempts >= maxAttempts
  }

  /** Any other change of a row leaves it running, ended, or queued with an attempt left. */
  lemma ChangeLeavesOne(s: State, e: Event, t: TaskId)
    requires s.cfg.maxAttempts >= 1 && !Late(s, e, t) && RowOf(Step(s, e), t) != RowOf(s, t)
    ensures !Spent(RowOf(Step(s, e), t), s.cfg.maxAttempts)
  {
  }

  /** Over every run: a queued task has no attempts left if and only if its row's last change put it back with
      none left. */
  lemma {:induction false} SpentExactly(cap: int, maxAttempts: nat, es: seq<Event>, t: TaskId)
    requires maxAttempts >= 1
    ensures Spent(RowOf(Run(Init(cap, maxAttempts), es), t), maxAttempts) <==> PutBackLate(Init(cap, maxAttempts), es, t)
    decreases |es|
  {
    if es != [] {
      var front, e := es[..|es| - 1], es[|es| - 1];
      var mid := Run(Init(cap, maxAttempts), front);
      SpentExactly(cap, maxAttempts, front, t);
      KeepsMax(Init(cap, maxAttempts), front);
      if !Late(mid, e, t) && RowOf(Step(mid, e), t) != RowOf(mid, t) { ChangeLeavesOne(mid, e, t); }
    }
  }

  /** Since it was added the task was attempted after it had been put back with no attempts left. */
  predicate TriedLate(s: State, es: seq<Event>, t: TaskId)
    decreases |es|
  {
    es != [] && RowOf(Run(s, es), t).Some? &&
    var front := es[..|es| - 1];
    RowOf(Run(s, front), t).Some? &&
    (TriedLate(s, front, t) || (PutBackLate(s, front, t) && AttemptsOf(Run(s, es), t) > AttemptsOf(Run(s, front), t)))
  }

  /** A row's attempts grow by one at a time, from the queue, and never fall. */
  lemma AttemptsGrow(s: State, e: Event, t: TaskId)
    requires t in s.rows.tasks && t in Step(s, e).rows.tasks
    ensures AttemptsOf(s, t) <= AttemptsOf(Step(s, e), t) <= AttemptsOf(s, t) + 1
    ensures AttemptsOf(Step(s, e), t) > AttemptsOf(s, t) ==> s.rows.tasks[t].status == Queued
  {
  }

  lemma OverspentStep(s: State, e: Event, t: TaskId)
    ensures AttemptsOf(Step(s, e), t) > s.cfg.maxAttempts <==>
      && RowOf(Step(s, e), t).Some? && RowOf(s, t).Some?
      && (AttemptsOf(s, t) > s.cfg.maxAttempts
          || (Spent(RowOf(s, t), s.cfg.maxAttempts) && AttemptsOf(Step(s, e), t) > AttemptsOf(s, t)))
  {
    if t in s.rows.tasks && t in Step(s, e).rows.tasks { AttemptsGrow(s, e, t); }
  }

  /** Over every run: a task has been attempted more often than configured if and only if it was attempted after
      it had been put back with no attempts left. */
  lemma {:induction false} OverspentExactly(cap: int, maxAttempts: nat, es: seq<Event>, t: TaskId)
    requires maxAttempts >= 1
    ensures AttemptsOf(Run(Init(cap, maxAttempts), es), t) > maxAttempts <==> TriedLate(Init(cap, maxAttempts), es, t)
    decreases |es|
  {
    if es != [] {
      var front := es[..|es| - 1];
      OverspentExactly(cap, maxAttempts, front, t);
      SpentExactly(cap, maxAttempts, front, t);
      KeepsMax(Init(cap, maxAttempts), front);
      OverspentStep(Run(Init(cap, maxAttempts), front), es[|es| - 1], t);
    }
  }

  /** `k` ticks that each come to the task. */
  function Rounds(k: nat, t: TaskId, w: World): seq<Event> {
    if k == 0 then [] else Rounds(k - 1, t, w) + [Tick(true, true, true), Take(t, w)]
  }

  /** The turn tries a start and counts it when it fails. */
  predicate Tries(w: World) {
    !w.passthrough && w.assignment.Spawn? && !w.writeFails && (w.assignment.gpu.Some? ==> !w.releaseFails)
  }

  /** Its start raises, because the container's name is taken or for a reason of its own. */
  predicate CannotStart(s: State, t: TaskId, w: World) {
    Tries(w) && (t in s.containers || w.spawn.Raises?)
  }

  /** A task that cannot be started, be it that its own container runs and is slow to claim it: every tick with a
      free slot costs it an attempt, so it fails after `k` ticks if and only if it had at most `k` attempts left,
      and a container it has runs on. */
  lemma {:induction false} SlowClaimFails(s: State, k: nat, t: TaskId, w: World)
    requires CannotStart(s, t, w) && Claimable(s.rows, t) && s.rows.tasks[t].attempts < s.cfg.maxAttempts
    requires s.cfg.cap > |InProgressIn(s.rows)|
    ensures var after := Run(s, Rounds(k, t, w));
      && after.containers == s.containers && t in after.rows.tasks && InProgressIn(after.rows) == InProgressIn(s.rows)
      && after.cfg.cap == s.cfg.cap && after.cfg.maxAttempts == s.cfg.maxAttempts && after.late == s.late
      && after.rows.tasks[t] ==
           if s.rows.tasks[t].attempts + k >= s.cfg.maxAttempts then Task(Failed, s.cfg.maxAttempts)
           else Task(Queued, s.rows.tasks[t].attempts + k)
  {
    if k > 0 {
      SlowClaimFails(s, k - 1, t, w);
      var front := Rounds(k - 1, t, w);
      TwoMore(s, front, Tick(true, true, true), Take(t, w));
      RoundTaken(Run(s, front), t, w);
    }
  }

  lemma TwoMore(s: State, es: seq<Event>, d: Event, e: Event)
    ensures Run(s, es + [d, e]) == Step(Step(Run(s, es), d), e)
  {
    var more := es + [d, e];
    assert more[..|more| - 1] == es + [d] && (es + [d])[..|es|] == es;
  }

  lemma RoundTaken(s: State, t: TaskId, w: World)
    requires CannotStart(s, t, w) && t in s.rows.tasks && s.rows.tasks[t].status in {Queued, Failed}
    requires s.cfg.cap > |InProgressIn(s.rows)|
    ensures var after := Step(Step(s, Tick(true, true, true)), Take(t, w));
      && after.containers == s.containers && after.cfg.cap == s.cfg.cap && after.cfg.maxAttempts == s.cfg.maxAttempts && InProgressIn(after.rows) == InProgressIn(s.rows)
      && t in after.rows.tasks && after.late == s.late
      && after.rows.tasks[t] == if s.rows.tasks[t].status == Queued then CountedFailure(s.rows.tasks[t], s.cfg.maxAttempts) else s.rows.tasks[t]
  {
  }

  // ----- the input that goes over the configured attempts ------------------------------------------------------

  const Breaks: World := World(false, RaisesEarly, Spawn(None), Raises, false, false)

  /** `n` times put back and tried once more. */
  function Again(n: nat, t: TaskId): seq<Event> {
    if n == 0 then [] else Again(n - 1, t) + [Retry(t), Tick(true, true, true), Take(t, Breaks)]
  }

  /** The bound is reached: for every number of attempts and every `n`, a task that cannot be started and is put
      back `n` times after it failed has been attempted `n` times more often than configured. */
  lemma BoundIsReached(maxAttempts: nat, n: nat)
    requires maxAttempts >= 1
    ensures var after := Run(Init(1, maxAttempts), [Add(0)] + Rounds(maxAttempts, 0, Breaks) + Again(n, 0));
      0 in after.rows.tasks && after.rows.tasks[0] == Task(Failed, maxAttempts + n) && after.late[0] == n
  {
    var init := Init(1, maxAttempts);
    var added := Step(init, Add(0));
    assert Run(init, []) == init && [Add(0)][..0] == [];
    assert Run(init, [Add(0)]) == added;
    assert InProgressIn(added.rows) == {};
    SlowClaimFails(added, maxAttempts, 0, Breaks);
    RunAppend(init, [Add(0)], Rounds(maxAttempts, 0, Breaks));
    var failed := Run(added, Rounds(maxAttempts, 0, Breaks));
    assert failed.late[0] == 0;
    RetriedAgain(failed, n, 0);
    RunAppend(init, [Add(0)] + Rounds(maxAttempts, 0, Breaks), Again(n, 0));
  }

  lemma {:induction false} RunAppend(s: State, a: seq<Event>, b: seq<Event>)
    ensures Run(s, a + b) == Run(Run(s, a), b)
    decreases |b|
  {
    if b == [] {
      assert a + b == a;
    } else {
      assert (a + b)[..|a + b| - 1] == a + b[..|b| - 1];
      RunAppend(s, a, b[..|b| - 1]);
    }
  }

  lemma RetryRound(s: State, t: TaskId)
    requires t in s.rows.tasks && s.rows.tasks[t].status == Failed && s.rows.tasks[t].attempts >= s.cfg.maxAttempts
    requires s.cfg.cap > |InProgressIn(s.rows)|
    ensures var after := Step(Step(Step(s, Retry(t)), Tick(true, true, true)), Take(t, Breaks));
      && t in after.rows.tasks && after.rows.tasks[t] == Task(Failed, s.rows.tasks[t].attempts + 1)
      && after.late[t] == s.late[t] + 1 && after.cfg.cap == s.cfg.cap && after.cfg.maxAttempts == s.cfg.maxAttempts
      && InProgressIn(after.rows) == InProgressIn(s.rows)
  {
    var back := Step(s, Retry(t));
    assert InProgressIn(back.rows) == InProgressIn(s.rows);
    RoundTaken(back, t, Breaks);
  }

  lemma AgainRun(s: State, n: nat, t: TaskId)
    requires n > 0
    ensures Run(s, Again(n, t)) == Step(Step(Step(Run(s, Again(n - 1, t)), Retry(t)), Tick(true, true, true)), Take(t, Breaks))
  {
    var front := Again(n - 1, t);
    assert front + [Retry(t), Tick(true, true, true), Take(t, Breaks)] == (front + [Retry(t)]) + [Tick(true, true, true), Take(t, Breaks)];
    assert (front + [Retry(t)])[..|front|] == front;
    TwoMore(s, front + [Retry(t)], Tick(true, true, true), Take(t, Breaks));
  }

  lemma {:induction false} RetriedAgain(s: State, n: nat, t: TaskId)
    requires t in s.rows.tasks && s.rows.tasks[t].status == Failed && s.rows.tasks[t].attempts >= s.cfg.maxAttempts
    requires s.cfg.cap > |InProgressIn(s.rows)|
    ensures var after := Run(s, Again(n, t));
      && t in after.rows.tasks && after.rows.tasks[t] == Task(Failed, s.rows.tasks[t].attempts + n)
      && after.late[t] == s.late[t] + n && after.cfg.cap == s.cfg.cap && after.cfg.maxAttempts == s.cfg.maxAttempts
      && InProgressIn(after.rows) == InProgressIn(s.rows)
  {
    if n > 0 {
      RetriedAgain(s, n - 1, t);
      AgainRun(s, n, t);
      RetryRound(Run(s, Again(n - 1, t)), t);
    }
  }
}
