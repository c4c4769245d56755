/** What the GPU protocol guarantees over every interleaving, and where it stops. */
module GpuGuarantees {
  import opened Options
  import opened GpuProtocol

  lemma {:induction false} RunKeepsInv(s: State, es: seq<Event>)
    requires Inv(s)
    ensures Inv(Run(s, es))
    decreases |es|
  {
    if es != [] {
      RunKeepsInv(s, es[..|es| - 1]);
      StepKeepsInv(Run(s, es[..|es| - 1]), es[|es| - 1]);
    }
  }

  lemma RunFromInit(rows: Rows, tasks: Tasks, es: seq<Event>)
    requires RowsOk(rows, tasks)
    ensures Inv(Run(Init(rows, tasks), es))
  {
    RunKeepsInv(Init(rows, tasks), es);
  }

  // ----- mutual exclusion --------------------------------------------------------------------

  /** A transcode claim holds the row: uncommitted and known only to this process, or committed. */
  predicate ClaimHolds(s: State, g: GpuId) {
    g in s.disp.claimed || (g in s.db.rows && InUse(s.db.rows[g]))
  }

  predicate ProbePastCheck(s: State, g: GpuId) {
    g in s.prober.probes && s.prober.probes[g].phase.Running?
  }

  /** No interleaving lets a probe run on a row a claim holds. */
  lemma ProbeExcludesClaim(rows: Rows, tasks: Tasks, es: seq<Event>, g: GpuId)
    requires RowsOk(rows, tasks)
    ensures var s := Run(Init(rows, tasks), es); !(ProbePastCheck(s, g) && ClaimHolds(s, g))
  {
    RunFromInit(rows, tasks, es);
  }

  /** The device a claim picks from its (possibly stale) select is still free when it picks it: no probe
      has it reserved and no other claim holds it. */
  lemma ClaimTakesFreeRow(rows: Rows, tasks: Tasks, es: seq<Event>, enc: Encoder, container: Container, g: GpuId)
    requires RowsOk(rows, tasks)
    requires var s := Run(Init(rows, tasks), es);
      s.disp.session.Reading? && s.Sees().Answers(enc, container, SpawnGpu(g)) && g in s.db.rows
    ensures var s := Run(Init(rows, tasks), es);
      g !in s.prober.probes && g !in s.disp.claimed && !InUse(s.db.rows[g])
  {
    RunFromInit(rows, tasks, es);
  }

  // ----- claims and rows ---------------------------------------------------------------------

  lemma ClaimantIsBusy(rows: Rows, tasks: Tasks, es: seq<Event>, g: GpuId)
    requires RowsOk(rows, tasks)
    ensures var db := Run(Init(rows, tasks), es).db;
      g in db.rows && db.rows[g].claimant.Some? ==> db.rows[g].busy && db.rows[g].claimant.value in db.tasks
  {
    RunFromInit(rows, tasks, es);
  }

  /** Settling, resetting or deleting a task leaves no row pointing at it. */
  lemma TaskEndDropsItsClaims(s: State, t: TaskId, e: RequestEvent)
    requires (e.TaskSettle? || e.StaleReset? || e.CancelDelete? || e.DropTask?) && e.task == t
    ensures var db' := Step(s, R(e)).db;
      db' != s.db ==> forall g | g in db'.rows :: db'.rows[g].claimant != Some(t)
  {
  }

  /** After the boot release a row is BUSY exactly when it was BUSY and a queued or running task holds it,
      and that row is untouched. */
  lemma BootReleaseSettlesRows(s: State, g: GpuId)
    requires g in s.db.rows
    ensures var db' := Step(s, R(BootRelease)).db;
      && g in db'.rows && db'.tasks == s.db.tasks
      && (db'.rows[g].busy <==> s.db.rows[g].busy && HeldByLiveTask(s.db.rows[g], s.db.tasks))
      && (db'.rows[g].busy ==> HeldByLiveTask(db'.rows[g], db'.tasks))
      && (db'.rows[g] != s.db.rows[g] <==> s.db.rows[g].busy && !HeldByLiveTask(s.db.rows[g], s.db.tasks))
  {
  }

  predicate Orphan(s: State, g: GpuId) {
    g in s.db.rows && s.db.rows[g].busy && s.db.rows[g].claimant.None?
  }

  /** A BUSY row whose claimant the foreign key nulled: nothing but the boot release, or deleting the
      row, ever frees it. */
  lemma OnlyBootFreesOrphan(s: State, e: Event, g: GpuId)
    requires Inv(s) && Orphan(s, g)
    ensures Orphan(Step(s, e), g) <==> (e != R(BootRelease) && e != R(DeleteGpu(g)))
  {
    if e.R? { RequestKeepsOrphan(s, e.r, g); } else { DispatcherHolds(s, e, g); }
  }

  lemma RequestKeepsOrphan(s: State, e: RequestEvent, g: GpuId)
    requires Inv(s) && Orphan(s, g)
    ensures Orphan(Step(s, R(e)), g) <==> (e != BootRelease && e != DeleteGpu(g))
  {
    assert !HeldByLiveTask(s.db.rows[g], s.db.tasks);
  }

  /** The event deletes the row's claimant and does not release the row: a drop, or a cancel whose first
      read did not find the row. */
  predicate Leaves(s: State, e: Event, g: GpuId) {
    && g in s.db.rows && s.db.rows[g].claimant.Some? && e.R?
    && var t := s.db.rows[g].claimant.value;
       !s.disp.Locks(t) && (e.r == DropTask(t) || (e.r == CancelDelete(t) && t in s.cancels && g !in s.cancels[t]))
  }

  /** What an event other than a request writes of a row's holder: a dispatcher commits a claim on a free
      row for a queued task, or releases a row nobody holds. */
  lemma DispatcherHolds(s: State, e: Event, g: GpuId)
    requires Inv(s) && !e.R? && g in s.db.rows
    ensures var row, row' := s.db.rows[g], Step(s, e).db.rows;
      && g in row' && Step(s, e).db.tasks == s.db.tasks
      && ((row'[g].busy == row.busy && row'[g].claimant == row.claimant)
          || (!row.busy && (row'[g].busy ==> HeldByLiveTask(row'[g], s.db.tasks))))
  {
  }

  lemma NoNewRows(s: State, e: Event, g: GpuId)
    ensures g in Step(s, e).db.rows ==> g in s.db.rows
  {
  }

  /** A row becomes an orphan exactly by such an event. */
  lemma OrphanArises(s: State, e: Event, g: GpuId)
    requires Inv(s) && !Orphan(s, g)
    ensures Orphan(Step(s, e), g) <==> Leaves(s, e, g)
  {
    NoNewRows(s, e, g);
    if e.R? {
      if g in s.db.rows { RequestOrphans(s, e.r, g); }
    } else if g in s.db.rows {
      DispatcherHolds(s, e, g);
    }
  }

  lemma RequestOrphans(s: State, e: RequestEvent, g: GpuId)
    requires Inv(s) && !Orphan(s, g) && g in s.db.rows
    ensures Orphan(Step(s, R(e)), g) <==> Leaves(s, R(e), g)
  {
  }

  /** Event `k` left the row behind, and nothing has freed or deleted it since. */
  ghost predicate LeftAt(s0: State, es: seq<Event>, g: GpuId, k: int) {
    && 0 <= k < |es| && Leaves(Run(s0, es[..k]), es[k], g)
    && forall j | k < j < |es| :: es[j] != R(BootRelease) && es[j] != R(DeleteGpu(g))
  }

  lemma LeftBefore(s0: State, es: seq<Event>, e: Event, g: GpuId, k: nat)
    requires k < |es|
    ensures LeftAt(s0, es + [e], g, k) <==> LeftAt(s0, es, g, k) && e != R(BootRelease) && e != R(DeleteGpu(g))
  {
    assert (es + [e])[..k] == es[..k];
    assert (es + [e])[|es|] == e;
    assert forall j | 0 <= j < |es| :: (es + [e])[j] == es[j];
  }

  /** Over every run: a row is an orphan exactly when some event left it behind and neither a boot release
      nor its own deletion came after. */
  lemma {:induction false} OrphanExactly(s0: State, es: seq<Event>, g: GpuId)
    requires Inv(s0) && !Orphan(s0, g)
    ensures Orphan(Run(s0, es), g) <==> exists k :: LeftAt(s0, es, g, k)
    decreases |es|
  {
    if es != [] {
      var before, e := es[..|es| - 1], es[|es| - 1];
      assert es == before + [e] && es[..|before|] == before;
      RunKeepsInv(s0, before);
      OrphanExactly(s0, before, g);
      forall k | 0 <= k < |before|
        ensures LeftAt(s0, es, g, k) <==> LeftAt(s0, before, g, k) && e != R(BootRelease) && e != R(DeleteGpu(g))
      {
        LeftBefore(s0, before, e, g, k);
      }
      assert LeftAt(s0, es, g, |before|) <==> Leaves(Run(s0, before), e, g);
      var s := Run(s0, before);
      if Orphan(s, g) { OnlyBootFreesOrphan(s, e, g); } else { OrphanArises(s, e, g); }
    }
  }

  /** A BUSY row that no queued or running task holds. */
  predicate Stranded(s: State, g: GpuId) {
    g in s.db.rows && s.db.rows[g].busy && !HeldByLiveTask(s.db.rows[g], s.db.tasks)
  }

  predicate FailsHolder(s: State, e: Event, g: GpuId) {
    && g in s.db.rows && s.db.rows[g].claimant.Some? && e.R?
    && e.r == FailQueued(s.db.rows[g].claimant.value) && !s.disp.Locks(s.db.rows[g].claimant.value)
    && s.db.rows[g].claimant.value in s.db.tasks && s.db.tasks[s.db.rows[g].claimant.value] == Queued
  }

  /** A device loses its last live holder while it stays BUSY exactly when the holder is deleted without a
      release, or fails while it is still queued. */
  lemma StrandedArises(s: State, e: Event, g: GpuId)
    requires Inv(s) && !Stranded(s, g)
    ensures Stranded(Step(s, e), g) <==> Leaves(s, e, g) || FailsHolder(s, e, g)
  {
    NoNewRows(s, e, g);
    if e.R? {
      if g in s.db.rows { RequestStrands(s, e.r, g); }
    } else if g in s.db.rows {
      DispatcherHolds(s, e, g);
    }
  }

  lemma RequestStrands(s: State, e: RequestEvent, g: GpuId)
    requires Inv(s) && !Stranded(s, g) && g in s.db.rows
    ensures Stranded(Step(s, R(e)), g) <==> Leaves(s, R(e), g) || FailsHolder(s, R(e), g)
  {
  }

  /** The request frees the row, deletes it, or puts its holder back. */
  predicate Recovers(s: State, e: RequestEvent, g: GpuId)
    requires g in s.db.rows
  {
    var holder := s.db.rows[g].claimant;
    || e == BootRelease || (holder.None? && e == DeleteGpu(g))
    || (holder.Some? && holder.value in s.db.tasks && s.db.tasks[holder.value] == Failed && e == Requeue(holder.value))
    || (holder.Some? && holder.value in s.cancels && g in s.cancels[holder.value] && !s.disp.Locks(holder.value)
        && e == CancelDelete(holder.value))
  }

  /** It is free or held again exactly by the boot release, by the deletion of its row, by putting its
      holder back, or by a cancel that found the row. */
  lemma StrandedEnds(s: State, e: Event, g: GpuId)
    requires Inv(s) && Stranded(s, g)
    ensures !Stranded(Step(s, e), g) <==> e.R? && Recovers(s, e.r, g)
  {
    if e.R? { RequestEndsStranded(s, e.r, g); } else { DispatcherHolds(s, e, g); }
  }

  lemma RequestEndsStranded(s: State, e: RequestEvent, g: GpuId)
    requires Inv(s) && Stranded(s, g)
    ensures !Stranded(Step(s, R(e)), g) <==> Recovers(s, e, g)
  {
  }

  // ----- where the guarantees stop -----------------------------------------------------------

  ghost predicate Reachable(s0: State, s: State) {
    exists es :: Run(s0, es) == s
  }

  lemma ReachNext(s0: State, s: State, e: Event)
    requires Reachable(s0, s)
    ensures Reachable(s0, Step(s, e))
  {
    var es :| Run(s0, es) == s;
    assert (es + [e])[..|es|] == es;
    assert Run(s0, es + [e]) == Step(s, e);
  }

  /** A claim commits between the two reads of a cancel of the same task: the cancel found no row to
      release, the foreign key nulls the claim, and the row stays BUSY with nobody holding it. */
  lemma CancelRaceOrphansGpu(row: GpuRow, t: TaskId, g: GpuId, enc: Encoder, container: Container)
    requires Eligible(row, enc, container) && !InUse(row)
    ensures exists s :: Reachable(Init(map[g := row], map[t := Queued]), s) && Orphan(s, g)
  {
    var rows := map[g := row];
    var s0 := Init(rows, map[t := Queued]);
    assert Run(s0, []) == s0;
    var s2 := Step(Step(s0, D(ReadGpus(t))), R(CancelRead(t)));
    ReachNext(s0, s0, D(ReadGpus(t)));
    ReachNext(s0, Step(s0, D(ReadGpus(t))), R(CancelRead(t)));
    assert s2.disp == Dispatcher(Reading(t, rows), {}) && s2.db == s0.db && s2.prober == s0.prober;
    assert s2.cancels[t] == {};
    ClaimOnly(s2, g, enc, container);
    var s3 := Step(s2, D(Decide(enc, container, SpawnGpu(g))));
    ReachNext(s0, s2, D(Decide(enc, container, SpawnGpu(g))));
    assert s3.disp == Dispatcher(Spawning(t, g), {g}) && s3.cancels == s2.cancels && s3.db == s0.db;
    ReachNext(s0, s3, D(CommitClaim));
    ReachNext(s0, Step(s3, D(CommitClaim)), R(CancelDelete(t)));
    CommitThenDelete(s3, t, g);
  }

  lemma CommitThenDelete(s: State, t: TaskId, g: GpuId)
    requires s.disp == Dispatcher(Spawning(t, g), {g}) && g in s.db.rows && t in s.db.tasks
    requires t in s.cancels && g !in s.cancels[t]
    ensures Orphan(Step(Step(s, D(CommitClaim)), R(CancelDelete(t))), g)
  {
  }

  lemma ClaimOnly(s: State, g: GpuId, enc: Encoder, container: Container)
    requires s.disp.session.Reading? && s.disp.session.snapshot.Keys == {g}
    requires Eligible(s.disp.session.snapshot[g], enc, container) && !InUse(s.disp.session.snapshot[g]) && g !in s.prober.probes
    ensures s.Sees().Answers(enc, container, SpawnGpu(g))
  {
    assert s.Sees().Free(g, enc, container);
  }

  /** A queued task that got a device is evicted, or deleted with its job: no race is needed. */
  lemma DropOrphansGpu(row: GpuRow, t: TaskId, g: GpuId, enc: Encoder, container: Container)
    requires Eligible(row, enc, container) && !InUse(row)
    ensures exists s :: Reachable(Init(map[g := row], map[t := Queued]), s) && Orphan(s, g)
  {
    var s := ClaimCommitted(row, t, g, enc, container);
    ReachNext(Init(map[g := row], map[t := Queued]), s, R(DropTask(t)));
    assert Orphan(Step(s, R(DropTask(t))), g);
  }

  lemma ClaimCommitted(row: GpuRow, t: TaskId, g: GpuId, enc: Encoder, container: Container) returns (s: State)
    requires Eligible(row, enc, container) && !InUse(row)
    ensures Reachable(Init(map[g := row], map[t := Queued]), s)
    ensures s.disp == Dispatcher(Committed(t, g), {g}) && s.cancels == map[]
    ensures s.db == Db(map[g := row.(busy := true, claimant := Some(t))], map[t := Queued])
  {
    var s0 := Init(map[g := row], map[t := Queued]);
    assert Run(s0, []) == s0;
    var s1 := Step(s0, D(ReadGpus(t)));
    ReachNext(s0, s0, D(ReadGpus(t)));
    assert s1.disp == Dispatcher(Reading(t, s0.db.rows), {}) && s1.db == s0.db && s1.prober == s0.prober;
    ClaimOnly(s1, g, enc, container);
    var s2 := Step(s1, D(Decide(enc, container, SpawnGpu(g))));
    ReachNext(s0, s1, D(Decide(enc, container, SpawnGpu(g))));
    assert s2.disp == Dispatcher(Spawning(t, g), {g}) && s2.db == s0.db && s2.cancels == map[];
    s := Step(s2, D(CommitClaim));
    ReachNext(s0, s2, D(CommitClaim));
  }

  /** Every GPU is held by a task that is still queued: its container was started and died before it
      claimed the task. */
  ghost predicate Wedged(s: State, holders: set<TaskId>) {
    && (forall t | t in holders :: t in s.db.tasks && s.db.tasks[t] == Queued)
    && (forall g | g in s.db.rows ::
          s.db.rows[g].busy && s.db.rows[g].claimant.Some? && s.db.rows[g].claimant.value in holders)
    && (s.disp.session.Reading? ==> forall g | g in s.disp.session.snapshot :: s.disp.session.snapshot[g].busy)
  }

  /** A device, one task, its container started and gone: that is already such a state. */
  lemma OneTaskWedges(row: GpuRow, t: TaskId, g: GpuId, enc: Encoder, container: Container)
    requires Eligible(row, enc, container) && !InUse(row)
    ensures exists s :: Reachable(Init(map[g := row], map[t := Queued]), s) && Wedged(s, {t}) && s.db.rows.Keys == {g}
  {
    var s := ClaimCommitted(row, t, g, enc, container);
    assert Wedged(s, {t});
  }

  /** A holder's container claims its task after all, or the holder is deleted or failed, while the
      dispatcher does not have its row locked. */
  predicate Rescues(s: State, e: Event, holders: set<TaskId>) {
    e.R? && match e.r
      case TaskClaim(t) => t in holders && !s.disp.Locks(t)
      case CancelDelete(t) => t in holders && !s.disp.Locks(t) && t in s.cancels
      case DropTask(t) => t in holders && !s.disp.Locks(t)
      case FailQueued(t) => t in holders && !s.disp.Locks(t)
      case _ => false
  }

  lemma RequestKeepsWedged(s: State, e: RequestEvent, holders: set<TaskId>)
    requires Wedged(s, holders) && !Rescues(s, R(e), holders)
    ensures Wedged(Step(s, R(e)), holders)
  {
    if e.BootRelease? { assert FreeOrphans(s.db.rows, s.db.tasks) == s.db.rows; }
  }

  /** Exactly such an event ends the state. */
  lemma WedgedEnds(s: State, e: Event, holders: set<TaskId>)
    requires Inv(s) && Wedged(s, holders)
    ensures Wedged(Step(s, e), holders) <==> !Rescues(s, e, holders)
  {
    if e.R? {
      if !Rescues(s, e, holders) { RequestKeepsWedged(s, e.r, holders); }
    } else {
      assert forall g | g in s.db.rows :: InUse(s.db.rows[g]);
    }
  }

  ghost predicate NoRescue(s: State, es: seq<Event>, holders: set<TaskId>) {
    es == [] || (NoRescue(s, es[..|es| - 1], holders) && !Rescues(Run(s, es[..|es| - 1]), es[|es| - 1], holders))
  }

  /** No sweep, spawn pass, probe or boot release ends that state, and in it no claim gets a GPU. */
  lemma {:induction false} QueuedHoldersWedgeGpus(s: State, es: seq<Event>, holders: set<TaskId>,
                                                  enc: Encoder, container: Container, d: Decision)
    requires Inv(s) && Wedged(s, holders) && NoRescue(s, es, holders)
    ensures var s' := Run(s, es);
      && Inv(s') && Wedged(s', holders)
      && (s'.disp.session.Reading? && s'.Sees().Answers(enc, container, d) ==> !d.SpawnGpu?)
    decreases |es|
  {
    if es != [] {
      var prefix, e := es[..|es| - 1], es[|es| - 1];
      QueuedHoldersWedgeGpus(s, prefix, holders, enc, container, d);
      StepKeepsInv(Run(s, prefix), e);
      WedgedEnds(Run(s, prefix), e, holders);
    }
  }
}
