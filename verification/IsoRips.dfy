/** Virtual drives for ISO rips: creating, cancelling and the watchdog, as locked steps. */
module IsoRips {
  import opened Options

  type DriveId = nat
  type JobId = nat

  datatype JobStatus = PreRip | Ripping | Ripped | Abandoned | Failed

  predicate Terminal(s: JobStatus) { s in {Ripped, Abandoned, Failed} }

  datatype Drive = Drive(source: string, enrolled: bool)

  /** Ids grow with the time of creation. */
  datatype Job = Job(drive: DriveId, status: JobStatus)

  datatype Container = Alive | Exited | Missing(young: bool)

  /** `creating`: the source of the request that holds the create lock and has passed its checks. `cancelled`
      and `failed`: the jobs a cancel abandoned and the watchdog failed. */
  datatype State = State(drives: map<DriveId, Drive>, jobs: map<JobId, Job>, creating: Option<string>,
                         nextDrive: DriveId, nextJob: JobId, cancelled: set<JobId>, failed: set<JobId>)

  function Live(s: State): set<DriveId> {
    set d | d in s.drives && s.drives[d].enrolled
  }

  predicate SourceLive(s: State, source: string) {
    exists d | d in s.drives :: s.drives[d].enrolled && s.drives[d].source == source
  }

  predicate IsLatest(s: State, d: DriveId, j: JobId) {
    j in s.jobs && s.jobs[j].drive == d && forall k | k in s.jobs && s.jobs[k].drive == d :: k <= j
  }

  /** What `_latest_job` returns. */
  ghost predicate LatestIs(s: State, d: DriveId, j: Option<JobId>) {
    if j.Some? then IsLatest(s, d, j.value) else forall k | k in s.jobs :: s.jobs[k].drive != d
  }

  function Retired(s: State, d: DriveId): State
    requires d in s.drives
  {
    s.(drives := s.drives[d := s.drives[d].(enrolled := false)])
  }

  function WithStatus(s: State, j: JobId, status: JobStatus): State
    requires j in s.jobs
  {
    s.(jobs := s.jobs[j := s.jobs[j].(status := status)])
  }

  /** `job`: the drive's latest, as the locked re-read finds it. */
  datatype Event =
    | CreateCheck(source: string, cap: nat)
    | CreateCommit
    | CreateFailed                                    // the container did not start: the new drive retires
    | Cancel(drive: DriveId, job: Option<JobId>)
    | Sweep(drive: DriveId, container: Container, job: Option<JobId>, respawned: bool)
    | Identify(drive: DriveId)                        // the ripper opens a job
    | Report(id: JobId, status: JobStatus)           // any other write of a job's status, the ripper's or an operator's

  ghost predicate Enabled(s: State, e: Event) {
    match e
    case Cancel(d, j) => LatestIs(s, d, j)
    case Sweep(d, _, j, _) => LatestIs(s, d, j)
    case _ => true
  }

  predicate Unfinished(s: State, d: DriveId, j: JobId) {
    j in s.jobs && s.jobs[j].drive == d && !Terminal(s.jobs[j].status)
  }

  function Step(s: State, e: Event): State {
    match e
    case CreateCheck(source, cap) =>
      if s.creating.Some? || SourceLive(s, source) || |Live(s)| >= cap then s else s.(creating := Some(source))
    case CreateCommit =>
      if s.creating.None? then s
      else s.(drives := s.drives[s.nextDrive := Drive(s.creating.value, true)], nextDrive := s.nextDrive + 1, creating := None)
    case CreateFailed =>
      if s.nextDrive > 0 && s.nextDrive - 1 in s.drives then Retired(s, s.nextDrive - 1) else s
    case Cancel(d, job) =>
      if d !in s.drives || !s.drives[d].enrolled then s
      else if job.Some? && Unfinished(s, d, job.value) then
        WithStatus(Retired(s, d), job.value, Abandoned).(cancelled := s.cancelled + {job.value})
      else Retired(s, d)
    case Sweep(d, container, job, respawned) =>
      if container.Alive? || (container.Missing? && container.young) then s
      else if d !in s.drives || !s.drives[d].enrolled then s
      else if job.Some? && job.value in s.jobs && s.jobs[job.value].status == PreRip && respawned then s
      else if job.Some? && Unfinished(s, d, job.value) then
        WithStatus(Retired(s, d), job.value, Failed).(failed := s.failed + {job.value})
      else Retired(s, d)
    case Identify(d) =>
      if d !in s.drives then s else s.(jobs := s.jobs[s.nextJob := Job(d, PreRip)], nextJob := s.nextJob + 1)
    case Report(j, status) =>
      if j !in s.jobs then s else WithStatus(s, j, status)
  }

  function Run(s: State, es: seq<Event>): State {
    if es == [] then s else Step(Run(s, es[..|es| - 1]), es[|es| - 1])
  }

  const EMPTY := State(map[], map[], None, 0, 0, {}, {})

  ghost predicate DrivesOk(s: State) {
    && (forall d | d in s.drives :: d < s.nextDrive)
    && (forall d, e | d in s.drives && e in s.drives && d != e && s.drives[d].enrolled && s.drives[e].enrolled :: s.drives[d].source != s.drives[e].source)
    && (s.creating.Some? ==> !SourceLive(s, s.creating.value))
  }

  ghost predicate RetiredJob(s: State, j: JobId) {
    j in s.jobs && s.jobs[j].drive in s.drives && !s.drives[s.jobs[j].drive].enrolled
  }

  /** A job that was cancelled or failed has a retired drive, and none was both. */
  ghost predicate JobsOk(s: State) {
    && (forall j | j in s.jobs :: j < s.nextJob && s.jobs[j].drive in s.drives)
    && (forall j | j in s.cancelled + s.failed :: RetiredJob(s, j))
    && s.cancelled !! s.failed
  }

  ghost predicate Inv(s: State) { DrivesOk(s) && JobsOk(s) }

  lemma RetiredKeepsDrives(s: State, d: DriveId)
    requires DrivesOk(s) && d in s.drives
    ensures DrivesOk(Retired(s, d))
  {
    var after := Retired(s, d);
    assert forall e | e in after.drives && after.drives[e].enrolled :: s.drives[e] == after.drives[e];
  }

  lemma CommitKeepsDrives(s: State)
    requires DrivesOk(s)
    ensures DrivesOk(Step(s, CreateCommit))
  {
  }

  lemma StepKeepsDrives(s: State, e: Event)
    requires DrivesOk(s)
    ensures DrivesOk(Step(s, e))
  {
    match e
    case CreateCommit => CommitKeepsDrives(s);
    case CreateFailed => if s.nextDrive > 0 && s.nextDrive - 1 in s.drives { RetiredKeepsDrives(s, s.nextDrive - 1); }
    case Cancel(d, _) => SettleKeepsDrives(s, e, d);
    case Sweep(d, _, _, _) => SettleKeepsDrives(s, e, d);
    case _ =>
      assert Step(s, e).drives == s.drives;
  }

  lemma SettleKeepsDrives(s: State, e: Event, d: DriveId)
    requires DrivesOk(s) && ((e.Cancel? && e.drive == d) || (e.Sweep? && e.drive == d))
    ensures DrivesOk(Step(s, e))
  {
    if d in s.drives {
      RetiredKeepsDrives(s, d);
      assert Step(s, e).drives == s.drives || Step(s, e).drives == Retired(s, d).drives;
    }
  }

  /** A drive is retired for good: drives come in with fresh ids. */
  lemma StaysRetired(s: State, e: Event, j: JobId)
    requires DrivesOk(s) && JobsOk(s) && RetiredJob(s, j)
    ensures RetiredJob(Step(s, e), j)
  {
  }

  lemma StepKeepsJobs(s: State, e: Event)
    requires DrivesOk(s) && JobsOk(s)
    ensures JobsOk(Step(s, e))
  {
    match e
    case Cancel(d, _) => SettleKeepsJobs(s, e, d);
    case Sweep(d, _, _, _) => SettleKeepsJobs(s, e, d);
    case _ =>
      var after := Step(s, e);
      assert after.cancelled == s.cancelled && after.failed == s.failed;
      forall j | j in after.cancelled + after.failed ensures RetiredJob(after, j) {
        StaysRetired(s, e, j);
      }
  }

  /** A cancel or a sweep settles a job of a drive that is enrolled, so one that neither has settled before. */
  lemma SettleKeepsJobs(s: State, e: Event, d: DriveId)
    requires DrivesOk(s) && JobsOk(s) && ((e.Cancel? && e.drive == d) || (e.Sweep? && e.drive == d))
    ensures JobsOk(Step(s, e))
  {
    var after := Step(s, e);
    if after.cancelled != s.cancelled || after.failed != s.failed {
      var j := e.job.value;
      assert j !in s.cancelled + s.failed by { assert !RetiredJob(s, j); }
      assert RetiredJob(after, j);
    }
    forall j | j in s.cancelled + s.failed ensures RetiredJob(after, j) {
      StaysRetired(s, e, j);
    }
  }

  lemma StepKeepsInv(s: State, e: Event)
    requires Inv(s)
    ensures Inv(Step(s, e))
  {
    StepKeepsDrives(s, e);
    StepKeepsJobs(s, e);
  }

  lemma {:induction false} RunKeepsInv(s: State, es: seq<Event>)
    requires Inv(s)
    ensures Inv(Run(s, es))
    decreases |es|
  {
    if es != [] {
      RunKeepsInv(s, es[..|es| - 1]);
      StepKeepsInv(Run(s, es[..|es| - 1]), es[|es| - 1]);
    }
  }

  /** No two live virtual drives rip the same source, and a job a cancel abandoned was not failed by the
      watchdog and never will be, whatever else is written of it. */
  lemma OneRipPerSource(es: seq<Event>, more: seq<Event>, d: DriveId, e: DriveId, j: JobId)
    ensures var s := Run(EMPTY, es);
      && (d in Live(s) && e in Live(s) && d != e ==> s.drives[d].source != s.drives[e].source)
      && (j in s.cancelled ==> j !in Run(s, more).failed)
  {
    RunKeepsInv(EMPTY, es);
    RunKeepsInv(Run(EMPTY, es), more);
    CancelledGrows(Run(EMPTY, es), more);
  }

  /** What was written of a job last, outside a cancel and a sweep. */
  function LastReport(es: seq<Event>, j: JobId): Option<JobStatus> {
    if es == [] then None
    else
      match es[|es| - 1]
      case Report(k, status) => if k == j then Some(status) else LastReport(es[..|es| - 1], j)
      case _ => LastReport(es[..|es| - 1], j)
  }

  lemma RetiredJobKeepsStatus(s: State, e: Event, j: JobId)
    requires Inv(s) && RetiredJob(s, j)
    ensures var after := Step(s, e);
      RetiredJob(after, j) && after.jobs[j].status == if e.Report? && e.id == j then e.status else s.jobs[j].status
  {
    StaysRetired(s, e, j);
  }

  lemma {:induction false} RetiredJobRun(s: State, more: seq<Event>, j: JobId)
    requires Inv(s) && RetiredJob(s, j)
    ensures var after := Run(s, more);
      && Inv(after) && RetiredJob(after, j)
      && after.jobs[j].status == if LastReport(more, j).Some? then LastReport(more, j).value else s.jobs[j].status
    decreases |more|
  {
    if more != [] {
      var front := more[..|more| - 1];
      RetiredJobRun(s, front, j);
      RetiredJobKeepsStatus(Run(s, front), more[|more| - 1], j);
      StepKeepsInv(Run(s, front), more[|more| - 1]);
    }
  }

  /** The status of a cancelled job is the one its ripper or an operator last wrote after the cancel, and
      Abandoned if neither did: no watchdog pass and no other cancel writes it again. */
  lemma CancelledStatus(s: State, cancel: Event, more: seq<Event>, j: JobId)
    requires Inv(s) && j !in s.cancelled && j in Step(s, cancel).cancelled
    ensures var after := Run(Step(s, cancel), more);
      && j in after.jobs && j !in after.failed
      && after.jobs[j].status == if LastReport(more, j).Some? then LastReport(more, j).value else Abandoned
  {
    StepKeepsInv(s, cancel);
    RetiredJobRun(Step(s, cancel), more, j);
    CancelledGrows(Step(s, cancel), more);
  }

  lemma {:induction false} CancelledGrows(s: State, es: seq<Event>)
    ensures s.cancelled <= Run(s, es).cancelled
    decreases |es|
  {
    if es != [] { CancelledGrows(s, es[..|es| - 1]); }
  }

  // ----- when each request is accepted ------------------------------------------------------------------

  /** A drive of the source is enrolled. */
  predicate BeingRipped(s: State, source: string) {
    exists d | d in s.drives :: s.drives[d].source == source && s.drives[d].enrolled
  }

  /** A rip of a source is let through if and only if no other request holds the lock, the source is not being ripped
      and fewer drives are live than the limit; a commit then adds exactly one drive, live and with a fresh id. */
  lemma CreateExactly(s: State, source: string, cap: nat)
    requires Inv(s)
    ensures var checked := Step(s, CreateCheck(source, cap));
      && (checked == s || checked == s.(creating := Some(source)))
      && (s.creating.None? && checked.creating.Some? <==>
            s.creating.None? && !BeingRipped(s, source) && |set d | d in s.drives && s.drives[d].enrolled| < cap)
    ensures s.creating.Some? ==>
      var done := Step(s, CreateCommit);
      && done.drives == s.drives[s.nextDrive := Drive(s.creating.value, true)] && s.nextDrive !in s.drives
      && done.creating.None? && done.jobs == s.jobs
  {
    assert Live(s) == set d | d in s.drives && s.drives[d].enrolled;
    assert SourceLive(s, source) <==> BeingRipped(s, source);
  }

  /** The drive's unfinished latest job. */
  predicate WaitsFor(s: State, d: DriveId, j: JobId) {
    j in s.jobs && s.jobs[j].drive == d && s.jobs[j].status != Ripped && s.jobs[j].status != Abandoned && s.jobs[j].status != Failed
  }

  /** A cancel retires exactly a live drive, and abandons exactly its latest job if that is unfinished. */
  lemma CancelExactly(s: State, d: DriveId, job: Option<JobId>)
    ensures var after := Step(s, Cancel(d, job));
      var live := d in s.drives && s.drives[d].enrolled;
      && after.drives == (if live then s.drives[d := s.drives[d].(enrolled := false)] else s.drives)
      && after.jobs == (if live && job.Some? && WaitsFor(s, d, job.value)
                        then s.jobs[job.value := s.jobs[job.value].(status := Abandoned)] else s.jobs)
  {
  }

  /** The container has exited, or is missing and not just being started. */
  predicate GoneForGood(c: Container) { c == Exited || c == Missing(false) }

  /** The watchdog retires a live drive if and only if its container is gone for good and was not started again for a
      job that waits before its rip; exactly then its latest job fails, if that is unfinished. */
  lemma SweepExactly(s: State, d: DriveId, c: Container, job: Option<JobId>, respawned: bool)
    ensures var after := Step(s, Sweep(d, c, job, respawned));
      var revived := job.Some? && job.value in s.jobs && s.jobs[job.value].status == PreRip && respawned;
      var retires := d in s.drives && s.drives[d].enrolled && GoneForGood(c) && !revived;
      && after.drives == (if retires then s.drives[d := s.drives[d].(enrolled := false)] else s.drives)
      && after.jobs == (if retires && job.Some? && WaitsFor(s, d, job.value)
                        then s.jobs[job.value := s.jobs[job.value].(status := Failed)] else s.jobs)
  {
  }

  /** A cancel or a sweep that retires a live drive leaves its latest job finished; the sweep does so only
      when the container is gone for good. */
  lemma RetiredMeansSettled(s: State, e: Event, d: DriveId, j: JobId)
    requires Inv(s) && Enabled(s, e) && d in s.drives && s.drives[d].enrolled && (e.Cancel? || e.Sweep?)
    requires !Step(s, e).drives[d].enrolled && IsLatest(s, d, j)
    ensures Terminal(Step(s, e).jobs[j].status)
    ensures e.Sweep? ==> e.container.Exited? || (e.container.Missing? && !e.container.young)
    ensures e.Sweep? && s.jobs[j].status == PreRip ==> !e.respawned
    ensures e.Cancel? && !Terminal(s.jobs[j].status) ==> Step(s, e).jobs[j].status == Abandoned
    ensures e.Sweep? && !Terminal(s.jobs[j].status) ==> Step(s, e).jobs[j].status == Failed
  {
  }

  /** A new rip never takes the live drives past the limit it was checked against. */
  lemma CreateRespectsCap(s: State, source: string, cap: nat, es: seq<Event>)
    requires Inv(s) && s.creating.None? && Step(s, CreateCheck(source, cap)).creating.Some?
    requires forall e | e in es :: !e.CreateCommit?
    ensures var checked := Run(Step(s, CreateCheck(source, cap)), es);
      checked.creating == Some(source) && |Live(Step(checked, CreateCommit))| <= cap
  {
    var after := Step(s, CreateCheck(source, cap));
    OnlyFewerLive(after, es);
    var checked := Run(after, es);
    assert Live(checked) <= Live(s);
    FewerIsSmaller(Live(checked), Live(s));
    assert Live(Step(checked, CreateCommit)) <= Live(checked) + {checked.nextDrive};
    FewerIsSmaller(Live(Step(checked, CreateCommit)), Live(checked) + {checked.nextDrive});
  }

  lemma {:induction false} OnlyFewerLive(s: State, es: seq<Event>)
    requires s.creating.Some? && forall e | e in es :: !e.CreateCommit?
    ensures Run(s, es).creating == s.creating && Live(Run(s, es)) <= Live(s)
    decreases |es|
  {
    if es != [] {
      assert es[|es| - 1] in es;
      OnlyFewerLive(s, es[..|es| - 1]);
    }
  }

  lemma {:induction false} FewerIsSmaller<T>(a: set<T>, b: set<T>)
    requires a <= b
    ensures |a| <= |b|
  {
    if a != {} {
      var x :| x in a;
      FewerIsSmaller(a - {x}, b - {x});
    }
  }
}
