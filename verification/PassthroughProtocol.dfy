/** `execute_passthrough_task` against concurrent deletion: claim, move, re-read and settle as steps between
    which other requests commit. */
module PassthroughProtocol {
  import opened Options

  type TaskId = nat

  datatype Status = Queued | InProgress | Done | Failed

  /** Where the executor is: the claim written but not committed, the file moving, the move over, the row
      re-read (None: gone), the terminal state written but not committed. */
  datatype Phase =
    | Idle
    | Claiming(task: TaskId)
    | Moving(task: TaskId)
    | MoveOver(task: TaskId, ok: bool)
    | Reread(task: TaskId, ok: bool, found: bool)
    | Settling(task: TaskId, ok: bool)

  /** `rows`: the committed tasks. `moved`: the tasks whose file reached its final path. `gone`: the tasks
      that were deleted. */
  datatype State = State(rows: map<TaskId, Status>, phase: Phase, moved: set<TaskId>, gone: set<TaskId>)

  datatype Event =
    | Reload(task: TaskId)      // the locked re-select; writes the claim
    | CommitClaim
    | EndMove(ok: bool)         // finished, cancelled or failed
    | Heartbeat                 // the progress UPDATE, a no-op on a missing row
    | RereadRow
    | WriteEnd                  // flush of the terminal state: raises when the row is gone
    | CommitEnd
    | Raise                     // any exception: rollback, the guard swallows it
    | Delete(task: TaskId)      // cancel_running's tail, DELETE, eviction, a cascade
    | Create(task: TaskId)
    | Requeue(task: TaskId)     // retry of a failed task
    | SweepStale(task: TaskId, exhausted: bool)

  /** The claim's row lock keeps other writers off until the commit or rollback. */
  predicate Locked(s: State, t: TaskId) {
    (s.phase.Claiming? || s.phase.Settling?) && s.phase.task == t
  }

  function Put(s: State, t: TaskId, status: Status): State {
    s.(rows := s.rows[t := status])
  }

  function Step(s: State, e: Event): State {
    match e
    case Reload(t) =>
      if s.phase.Idle? && t in s.rows && s.rows[t] == Queued then s.(phase := Claiming(t)) else s
    case CommitClaim => if s.phase.Claiming? then Put(s, s.phase.task, InProgress).(phase := Moving(s.phase.task)) else s
    case EndMove(ok) =>
      if s.phase.Moving? then
        s.(phase := MoveOver(s.phase.task, ok), moved := s.moved + if ok then {s.phase.task} else {})
      else s
    case Heartbeat => s
    case RereadRow =>
      if s.phase.MoveOver? then s.(phase := Reread(s.phase.task, s.phase.ok, s.phase.task in s.rows)) else s
    case WriteEnd =>
      if !s.phase.Reread? then s
      else if !s.phase.found || s.phase.task !in s.rows then s.(phase := Idle)
      else s.(phase := Settling(s.phase.task, s.phase.ok))
    case CommitEnd =>
      if s.phase.Settling? then Put(s, s.phase.task, if s.phase.ok then Done else Failed).(phase := Idle) else s
    case Raise => s.(phase := Idle)
    case Delete(t) => if t in s.rows && !Locked(s, t) then s.(rows := s.rows - {t}, gone := s.gone + {t}) else s
    case Create(t) => if t in s.rows || t in s.gone then s else Put(s, t, Queued)
    case Requeue(t) => if t in s.rows && s.rows[t] == Failed && !Locked(s, t) then Put(s, t, Queued) else s
    case SweepStale(t, exhausted) =>
      if s.phase.Idle? && t in s.rows && s.rows[t] == InProgress then Put(s, t, if exhausted then Failed else Queued) else s
  }

  function Run(s: State, es: seq<Event>): State {
    if es == [] then s else Step(Run(s, es[..|es| - 1]), es[|es| - 1])
  }

  predicate Inv(s: State) {
    && (forall t | t in s.gone :: t !in s.rows)
    && (forall t | t in s.rows && s.rows[t] == Done :: t in s.moved)
    && (s.phase.Claiming? ==> s.phase.task in s.rows && s.rows[s.phase.task] == Queued)
    && (s.phase.MoveOver? || s.phase.Reread? || s.phase.Settling? ==> s.phase.ok ==> s.phase.task in s.moved)
    && (s.phase.Settling? ==> s.phase.task in s.rows)
  }

  lemma StepKeepsInv(s: State, e: Event)
    requires Inv(s)
    ensures Inv(Step(s, e))
  {
  }

  lemma {:induction false} RunKeepsInv(s: State, es: seq<Event>)
    requires Inv(s)
    ensures Inv(Run(s, es))
    decreases |es|
  {
    if es != [] {
      RunKeepsInv(s, es[..|es| - 1]);
      StepKeepsInv(Run(s, es[..|es| - 1]), es[|es| - 1]);
    }
  }

  const EMPTY := State(map[], Idle, {}, {})

  /** A deleted task never comes back, and a task that is DONE has its file at the final path. */
  lemma DeletedStaysDeletedAndDoneIsMoved(es: seq<Event>, more: seq<Event>, t: TaskId)
    ensures var s := Run(EMPTY, es);
      && (t in s.gone ==> t !in s.rows && t !in Run(s, more).rows)
      && (t in s.rows && s.rows[t] == Done ==> t in s.moved)
  {
    RunKeepsInv(EMPTY, es);
    RunKeepsInv(Run(EMPTY, es), more);
    GoneGrows(Run(EMPTY, es), more);
  }

  lemma {:induction false} GoneGrows(s: State, es: seq<Event>)
    ensures s.gone <= Run(s, es).gone
    decreases |es|
  {
    if es != [] { GoneGrows(s, es[..|es| - 1]); }
  }

  /** The terminal state is written on the row the executor claimed and no other, and only when it still is
      there: the run of the executor changes no other row. */
  lemma ExecutorWritesItsOwnRow(s: State, e: Event, t: TaskId)
    requires e.Reload? || e.CommitClaim? || e.EndMove? || e.Heartbeat? || e.RereadRow? || e.WriteEnd? || e.CommitEnd? || e.Raise?
    requires s.phase.Idle? || s.phase.task != t
    ensures t in Step(s, e).rows <==> t in s.rows
    ensures t in s.rows ==> Step(s, e).rows[t] == s.rows[t]
  {
  }

  /** Nobody interfering, a queued task is claimed, moved and settled: done exactly when the move succeeded, and then
      its file is at the final path. */
  lemma RunsThrough(s: State, t: TaskId, ok: bool)
    requires s.phase.Idle? && t in s.rows && s.rows[t] == Queued
    ensures var claimed := Step(Step(s, Reload(t)), CommitClaim);
      && claimed == s.(rows := s.rows[t := InProgress], phase := Moving(t))
      && Step(Step(Step(Step(claimed, EndMove(ok)), RereadRow), WriteEnd), CommitEnd)
           == s.(rows := s.rows[t := if ok then Done else Failed], moved := if ok then s.moved + {t} else s.moved)
  {
    var claimed := Step(Step(s, Reload(t)), CommitClaim);
    assert claimed.rows[t := if ok then Done else Failed] == s.rows[t := if ok then Done else Failed];
    assert s.moved + {} == s.moved;
  }

  /** Deleted while its file moves, a task stays deleted and the executor is free again. */
  lemma DeletedMidMove(s: State, t: TaskId, ok: bool)
    requires s.phase == Moving(t) && t in s.rows
    ensures var after := Step(Step(Step(Step(s, Delete(t)), EndMove(ok)), RereadRow), WriteEnd);
      after.phase.Idle? && after.rows == s.rows - {t} && after.gone == s.gone + {t}
  {
  }

  /** A queued task is not claimed twice: a reload takes exactly a task that is queued, and only when the executor is
      free; a sweep of stale claims puts back or fails exactly a running one. */
  lemma ClaimsExactly(s: State, t: TaskId, exhausted: bool)
    ensures Step(s, Reload(t)).phase != s.phase <==> s.phase.Idle? && t in s.rows && s.rows[t] == Queued
    ensures Step(s, SweepStale(t, exhausted)) ==
      if s.phase.Idle? && t in s.rows && s.rows[t] == InProgress then s.(rows := s.rows[t := if exhausted then Failed else Queued]) else s
  {
  }
}
