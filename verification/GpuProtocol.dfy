/** GPU claims and GPU probes on one event loop.

    The state is what outlives an `await`: the committed `gpus` and `transcode_tasks` rows, the
    dispatcher's in-process sets, and the program counter of every coroutine that touches a GPU (the one
    dispatcher, one probe per reserved row, the boot pass, and the requests that cancel a task). An event
    is one stretch of code between two awaits, so a sequence of events is an interleaving. */
module GpuProtocol {
  import opened Options

  type GpuId = nat
  type TaskId = nat

  datatype Vendor = NVENC | QSV | VAAPI
  datatype Codec = H264 | H265 | AV1
  datatype Container = MKV | MP4 | WEBM | FLAC | MP3 | OGG | ISO | NoContainer

  /** A catalog entry: HandBrake's own encoder, a CPU encoder, any vendor's GPU encoder, one vendor's,
      or an id the catalog no longer holds. */
  datatype Encoder = PresetOwn | Cpu(codec: Codec) | AnyGpu(codec: Codec) | Pinned(vendor: Vendor, codec: Codec) | Unknown

  datatype GpuRow = GpuRow(vendor: Vendor, path: nat, enabled: bool, probed: bool, verified: set<Codec>,
                           busy: bool, claimant: Option<TaskId>)

  datatype TaskStatus = Queued | InProgress | Done | Failed

  predicate SupportsContainer(vendor: Vendor, container: Container) {
    vendor != VAAPI || container == MKV || container == MP4
  }

  predicate VendorMatches(row: GpuRow, enc: Encoder) {
    enc.AnyGpu? || (enc.Pinned? && row.vendor == enc.vendor)
  }

  predicate Eligible(row: GpuRow, enc: Encoder, container: Container) {
    && VendorMatches(row, enc) && SupportsContainer(row.vendor, container)
    && row.enabled && row.probed && enc.codec in row.verified
  }

  /** Every vendor has a GPU encoder for every catalog codec, so only the vendor decides. */
  predicate CouldServe(row: GpuRow, enc: Encoder, container: Container) {
    VendorMatches(row, enc) && SupportsContainer(row.vendor, container) && row.enabled
  }

  predicate InUse(row: GpuRow) {
    row.busy || row.claimant.Some?
  }

  // ----- the claim's answer ------------------------------------------------------------------

  datatype Decision = SpawnPlain | SpawnCpuFallback | SpawnGpu(gpu: GpuId) | Queue | Fail

  /** What the claim reads: the rows its select returned and the in-process sets as they are now. */
  datatype Inventory = Inventory(rows: map<GpuId, GpuRow>, probing: set<GpuId>, pending: set<GpuId>, listing: bool)
  {
    predicate Awaiting(g: GpuId)
      requires g in rows
    {
      !rows[g].probed && (listing || g in pending || g in probing)
    }

    predicate Candidate(g: GpuId, enc: Encoder, container: Container) {
      g in rows && Eligible(rows[g], enc, container) && g !in probing
    }

    predicate Free(g: GpuId, enc: Encoder, container: Container) {
      Candidate(g, enc, container) && !rows[g].busy
    }

    /** Vendor rank first, device path second. */
    predicate Before(g: GpuId, h: GpuId)
      requires g in rows && h in rows
    {
      var r, q := Rank(rows[g].vendor), Rank(rows[h].vendor);
      r < q || (r == q && rows[g].path <= rows[h].path)
    }

    ghost predicate Best(g: GpuId, enc: Encoder, container: Container) {
      Free(g, enc, container) && forall h | h in rows && Free(h, enc, container) :: Before(g, h)
    }

    /** `d` is an answer the claim may give: the dispatcher's decision table. */
    ghost predicate Answers(enc: Encoder, container: Container, d: Decision) {
      if enc.Unknown? then d == Fail
      else if enc.PresetOwn? || enc.Cpu? then d == SpawnPlain
      else
        if enc.Pinned? && !SupportsContainer(enc.vendor, container) then d == Fail
        else if exists g :: Candidate(g, enc, container) then
          if exists g :: Free(g, enc, container) then d.SpawnGpu? && Best(d.gpu, enc, container) else d == Queue
        else if exists g :: g in rows && Eligible(rows[g], enc, container) then d == Queue
        else if exists g :: g in rows && CouldServe(rows[g], enc, container) && Awaiting(g) then d == Queue
        else d == if enc.AnyGpu? then SpawnCpuFallback else Fail
    }
  }

  function Rank(v: Vendor): nat {
    match v case NVENC => 0 case QSV => 1 case VAAPI => 2
  }

  // ----- the state ---------------------------------------------------------------------------

  type Rows = map<GpuId, GpuRow>
  type Tasks = map<TaskId, TaskStatus>

  /** The committed rows every session reads. */
  datatype Db = Db(rows: Rows, tasks: Tasks)

  /** Where the dispatcher's spawn pass is: at rest, waiting for its `select(Gpu)`, holding a claim that
      only its own session can see, that claim committed, its transaction rolled back, or the rolled-back
      claim explicitly released. */
  datatype Session =
    | Idle
    | Reading(task: TaskId, snapshot: Rows)
    | Spawning(task: TaskId, gpu: GpuId)
    | Committed(task: TaskId, gpu: GpuId)
    | RolledBack(task: TaskId, gpu: GpuId)
    | Released(task: TaskId, gpu: GpuId)

  datatype Dispatcher = Dispatcher(session: Session, claimed: set<GpuId>)  // claimed_gpu_ids
  {
    /** The dispatcher keeps the task row `FOR UPDATE` from its re-read to its commit or rollback. */
    predicate Locks(t: TaskId) {
      (session.Reading? || session.Spawning?) && session.task == t
    }
  }

  datatype Phase = Reserved | Seen(row: Option<GpuRow>) | Running | Finishing
  datatype Probe = Probe(byBoot: bool, phase: Phase)
  datatype Boot = NotStarted | Listing | Listed(targets: seq<GpuId>) | Passing(queue: seq<GpuId>) | Ended

  datatype Prober = Prober(
    probes: map<GpuId, Probe>,   // its keys are probing_gpu_ids
    pending: set<GpuId>,         // pending_probe_gpu_ids
    listing: bool,               // boot_probe_listing
    boot: Boot)
  {
    /** The boot pass has started the probe of the first row of its queue. */
    predicate BootProbing() {
      boot.Passing? && boot.queue != [] && boot.queue[0] in probes && probes[boot.queue[0]].byBoot
    }
  }

  /** `cancels`: the GPUs each cancel request has read before it deletes its task. */
  datatype State = State(db: Db, disp: Dispatcher, prober: Prober, cancels: map<TaskId, set<GpuId>>)
  {
    function Sees(): Inventory
      requires disp.session.Reading?
    {
      Inventory(disp.session.snapshot, prober.probes.Keys, prober.pending, prober.listing)
    }
  }

  function Init(rows: Rows, tasks: Tasks): State {
    State(Db(rows, tasks), Dispatcher(Idle, {}), Prober(map[], {}, false, NotStarted), map[])
  }

  // ----- what the steps write ----------------------------------------------------------------

  /** `release_gpu_for_task`: every row this task claims goes back to AVAILABLE. */
  function ReleaseFor(rows: Rows, t: TaskId): (out: Rows)
    ensures out.Keys == rows.Keys
    ensures forall g | g in rows :: out[g].claimant != Some(t)
  {
    map g | g in rows :: if rows[g].claimant == Some(t) then rows[g].(busy := false, claimant := None) else rows[g]
  }

  /** Deleting a task: the rows the cancel found are released, and the foreign key nulls any claim left. */
  function AfterDelete(rows: Rows, t: TaskId, found: set<GpuId>): Rows {
    map g | g in rows ::
      if rows[g].claimant != Some(t) then rows[g]
      else if g in found then rows[g].(busy := false, claimant := None)
      else rows[g].(claimant := None)
  }

  predicate HeldByLiveTask(row: GpuRow, tasks: Tasks) {
    row.claimant.Some? && row.claimant.value in tasks && tasks[row.claimant.value] in {Queued, InProgress}
  }

  function FreedIfOrphan(row: GpuRow, tasks: Tasks): GpuRow {
    if row.busy && !HeldByLiveTask(row, tasks) then row.(busy := false, claimant := None) else row
  }

  /** `_release_orphaned_gpu_claims`: BUSY rows no live task holds. */
  function FreeOrphans(rows: Rows, tasks: Tasks): Rows {
    map g | g in rows :: FreedIfOrphan(rows[g], tasks)
  }

  /** A probe that never tested the device keeps the encoders the row had. */
  function Recorded(row: GpuRow, outcome: Option<set<Codec>>): GpuRow {
    row.(probed := true, verified := if outcome.Some? then outcome.value else row.verified)
  }

  predicate BootTarget(row: GpuRow) {
    row.enabled && (!row.probed || row.verified == {})
  }

  ghost predicate NoRepeat(q: seq<GpuId>) {
    forall i, j | 0 <= i < j < |q| :: q[i] != q[j]
  }

  function Members(q: seq<GpuId>): set<GpuId> {
    set g | g in q
  }

  ghost predicate Lists(targets: seq<GpuId>, rows: Rows) {
    && NoRepeat(targets)
    && (forall g | g in targets :: g in rows && BootTarget(rows[g]))
    && (forall g | g in rows && BootTarget(rows[g]) :: g in targets)
  }

  // ----- events ------------------------------------------------------------------------------

  /** The dispatcher: the claim's select, its decision, the container start and commit, the clean-up. */
  datatype DispatcherEvent =
    ReadGpus(task: TaskId) | Decide(enc: Encoder, container: Container, answer: Decision)
    | CommitClaim | FailClaim | ReleaseFailed | EndClaim

  datatype ProbeEvent =
    StartProbe | ReadRow | CheckInUse | Write(outcome: Option<set<Codec>>) | EndProbe

  datatype BootEvent =
    Start(capable: bool) | ReadTargets(targets: seq<GpuId>) | Reserve | Next | End

  /** Everything else that writes a task or a GPU row. */
  datatype RequestEvent =
    BootRelease | QueueTask(task: TaskId) | TaskClaim(task: TaskId) | TaskSettle(task: TaskId, ok: bool)
    | StaleReset(task: TaskId, exhausted: bool) | CancelRead(task: TaskId) | CancelDelete(task: TaskId)
    | DropTask(task: TaskId)      // an eviction or a job's cascade: deleted without a release
    | FailQueued(task: TaskId)    // a queued task that can never run: failed without a release
    | Requeue(task: TaskId)       // a failed task put back
    | EnableGpu(gpu: GpuId, enabled: bool) | DeleteGpu(gpu: GpuId)

  datatype Event = D(d: DispatcherEvent) | P(gpu: GpuId, p: ProbeEvent) | B(b: BootEvent) | R(r: RequestEvent)

  /** One event. An event whose guard does not hold leaves the state as it is. */
  ghost function Step(s: State, e: Event): State {
    match e
    case D(d) => s.(disp := DispatcherStep(s, d), db := s.db.(rows := DispatcherRows(s.db.rows, s.disp.session, d)))
    case P(g, p) =>
      s.(prober := ProbeStep(s.prober, s.disp.claimed, s.db.rows, g, p), db := s.db.(rows := ProbeRows(s.db.rows, s.prober, g, p)))
    case B(b) => s.(prober := BootStep(s.prober, s.disp.claimed, s.db.rows, b))
    case R(r) => s.(db := RequestDb(s.db, s.disp, s.cancels, r), cancels := RequestCancels(s, r))
  }

  ghost function DispatcherStep(s: State, e: DispatcherEvent): Dispatcher {
    var d := s.disp;
    match e
    case ReadGpus(t) =>
      if d.session.Idle? && t in s.db.tasks && s.db.tasks[t] == Queued then d.(session := Reading(t, s.db.rows)) else d
    case Decide(enc, container, answer) =>
      if !d.session.Reading? || !s.Sees().Answers(enc, container, answer) then d
      else if answer.SpawnGpu? then Dispatcher(Spawning(d.session.task, answer.gpu), d.claimed + {answer.gpu})
      else d.(session := Idle)
    case CommitClaim =>
      if !d.session.Spawning? then d
      else if d.session.gpu in s.db.rows then d.(session := Committed(d.session.task, d.session.gpu))
      else d.(session := RolledBack(d.session.task, d.session.gpu))
    case FailClaim => if d.session.Spawning? then d.(session := RolledBack(d.session.task, d.session.gpu)) else d
    case ReleaseFailed => if d.session.RolledBack? then d.(session := Released(d.session.task, d.session.gpu)) else d
    case EndClaim =>
      if d.session.Idle? || d.session.Reading? then d else Dispatcher(Idle, d.claimed - {d.session.gpu})
  }

  function DispatcherRows(rows: Rows, session: Session, e: DispatcherEvent): Rows {
    if e.CommitClaim? && session.Spawning? && session.gpu in rows
    then rows[session.gpu := rows[session.gpu].(busy := true, claimant := Some(session.task))]
    else if e.ReleaseFailed? && session.RolledBack? && session.gpu in rows
    then rows[session.gpu := rows[session.gpu].(busy := false, claimant := None)]
    else rows
  }

  function ProbeStep(p: Prober, claimed: set<GpuId>, rows: Rows, g: GpuId, e: ProbeEvent): Prober {
    if e.StartProbe? then
      if g in p.probes || g in claimed then p else p.(probes := p.probes[g := Probe(false, Reserved)])
    else if g !in p.probes then p
    else if e.EndProbe? then
      if p.probes[g].byBoot && p.boot.Passing? && p.boot.queue != []
      then p.(probes := p.probes - {g}, pending := p.pending - {g}, boot := Passing(p.boot.queue[1..]))
      else p.(probes := p.probes - {g})
    else p.(probes := p.probes[g := p.probes[g].(phase := NextPhase(p.probes[g].phase, g in claimed, rows, g, e))])
  }

  function NextPhase(phase: Phase, claimed: bool, rows: Rows, g: GpuId, e: ProbeEvent): Phase {
    match (phase, e)
    case (Reserved, ReadRow) => Seen(if g in rows then Some(rows[g]) else None)
    case (Seen(row), CheckInUse) => if row.None? || InUse(row.value) || claimed then Finishing else Running
    case (Running, Write(_)) => Finishing
    case _ => phase
  }

  function ProbeRows(rows: Rows, p: Prober, g: GpuId, e: ProbeEvent): Rows {
    if e.Write? && g in p.probes && p.probes[g].phase.Running? && g in rows
    then rows[g := Recorded(rows[g], e.outcome)] else rows
  }

  ghost function BootStep(p: Prober, claimed: set<GpuId>, rows: Rows, e: BootEvent): Prober {
    match e
    case Start(capable) =>
      if !p.boot.NotStarted? then p else if capable then p.(listing := true, boot := Listing) else p.(boot := Ended)
    case ReadTargets(targets) => if p.boot.Listing? && Lists(targets, rows) then p.(boot := Listed(targets)) else p
    case Reserve =>
      if p.boot.Listed?
      then p.(pending := p.pending + Members(p.boot.targets), listing := false, boot := Passing(p.boot.targets)) else p
    case Next =>
      if !p.boot.Passing? || p.boot.queue == [] || p.BootProbing() then p
      else
        var g := p.boot.queue[0];
        if g in p.probes || g in claimed then p.(pending := p.pending - {g}, boot := Passing(p.boot.queue[1..]))
        else p.(probes := p.probes[g := Probe(true, Reserved)])
    case End =>
      if p.boot.NotStarted? || p.boot.Ended? || p.BootProbing() then p
      else p.(listing := false, boot := Ended,
              pending := if p.boot.Passing? then p.pending - Members(p.boot.queue) else p.pending)
  }

  function RequestDb(db: Db, disp: Dispatcher, cancels: map<TaskId, set<GpuId>>, e: RequestEvent): Db {
    match e
    case BootRelease => db.(rows := FreeOrphans(db.rows, db.tasks))
    case QueueTask(t) => if t in db.tasks then db else db.(tasks := db.tasks[t := Queued])
    case TaskClaim(t) =>
      if t in db.tasks && db.tasks[t] == Queued && !disp.Locks(t) then db.(tasks := db.tasks[t := InProgress]) else db
    case TaskSettle(t, ok) =>
      if t in db.tasks && db.tasks[t] == InProgress
      then Db(ReleaseFor(db.rows, t), db.tasks[t := if ok then Done else Failed]) else db
    case StaleReset(t, exhausted) =>
      if t in db.tasks && db.tasks[t] == InProgress
      then Db(ReleaseFor(db.rows, t), db.tasks[t := if exhausted then Failed else Queued]) else db
    case CancelRead(_) => db
    case CancelDelete(t) =>
      if t in cancels && t in db.tasks && !disp.Locks(t)
      then Db(AfterDelete(db.rows, t, cancels[t]), db.tasks - {t}) else db
    case DropTask(t) => if t in db.tasks && !disp.Locks(t) then Db(AfterDelete(db.rows, t, {}), db.tasks - {t}) else db
    case FailQueued(t) =>
      if t in db.tasks && db.tasks[t] == Queued && !disp.Locks(t) then db.(tasks := db.tasks[t := Failed]) else db
    case Requeue(t) => if t in db.tasks && db.tasks[t] == Failed then db.(tasks := db.tasks[t := Queued]) else db
    case EnableGpu(g, on) => if g in db.rows then db.(rows := db.rows[g := db.rows[g].(enabled := on)]) else db
    case DeleteGpu(g) => if g in db.rows && db.rows[g].claimant.None? then db.(rows := db.rows - {g}) else db
  }

  function RequestCancels(s: State, e: RequestEvent): map<TaskId, set<GpuId>> {
    match e
    case CancelRead(t) => s.cancels[t := set g | g in s.db.rows && s.db.rows[g].claimant == Some(t)]
    case CancelDelete(t) => s.cancels - {t}
    case _ => s.cancels
  }

  ghost function Run(s: State, es: seq<Event>): State
    decreases |es|
  {
    if es == [] then s else Step(Run(s, es[..|es| - 1]), es[|es| - 1])
  }

  // ----- the invariant -----------------------------------------------------------------------

  /** The dispatcher holds at most one claim that is not both committed and finished. */
  ghost predicate SessionOk(d: Dispatcher, db: Db) {
    && d.claimed == (if d.session.Idle? || d.session.Reading? then {} else {d.session.gpu})
    && (d.session.Reading? || d.session.Spawning? ==> d.session.task in db.tasks && db.tasks[d.session.task] == Queued)
    && (d.session.Reading? ==>
          forall g | g in d.session.snapshot && g in db.rows && !d.session.snapshot[g].busy :: !db.rows[g].busy)
    && (d.session.Spawning? || d.session.RolledBack? || d.session.Released? ==>
          d.session.gpu in db.rows ==> !db.rows[d.session.gpu].busy)
  }

  /** What a probe past its read relies on: a row that it found free stays free. */
  predicate ProbeOk(probe: Probe, g: GpuId, rows: Rows) {
    match probe.phase
    case Seen(row) => row.Some? && !InUse(row.value) && g in rows ==> !InUse(rows[g])
    case Running => g in rows ==> !InUse(rows[g])
    case _ => true
  }

  ghost predicate ProbesOk(probes: map<GpuId, Probe>, claimed: set<GpuId>, rows: Rows) {
    probes.Keys !! claimed && forall g | g in probes :: ProbeOk(probes[g], g, rows)
  }

  ghost predicate RowsOk(rows: Rows, tasks: Tasks) {
    forall g | g in rows && rows[g].claimant.Some? :: rows[g].busy && rows[g].claimant.value in tasks
  }

  ghost predicate BootOk(p: Prober) {
    && p.listing == (p.boot.Listing? || p.boot.Listed?)
    && p.pending == (if p.boot.Passing? then Members(p.boot.queue) else {})
    && (p.boot.Passing? ==> NoRepeat(p.boot.queue))
    && (p.boot.Listed? ==> NoRepeat(p.boot.targets))
    && (forall g | g in p.probes && p.probes[g].byBoot :: p.boot.Passing? && p.boot.queue != [] && p.boot.queue[0] == g)
  }

  ghost predicate Inv(s: State) {
    && SessionOk(s.disp, s.db)
    && ProbesOk(s.prober.probes, s.disp.claimed, s.db.rows)
    && RowsOk(s.db.rows, s.db.tasks)
    && BootOk(s.prober)
  }

  lemma PopQueue(q: seq<GpuId>)
    requires q != [] && NoRepeat(q)
    ensures NoRepeat(q[1..]) && Members(q[1..]) == Members(q) - {q[0]}
  {
    forall g ensures g in Members(q[1..]) <==> g in Members(q) - {q[0]} {
      if g in Members(q) - {q[0]} {
        var i :| 0 <= i < |q| && q[i] == g;
        assert q[1..][i - 1] == g;
      }
    }
  }

  lemma DispatcherKeepsInv(s: State, e: DispatcherEvent)
    requires Inv(s)
    ensures Inv(Step(s, D(e)))
  {
  }

  lemma ProbeKeepsInv(s: State, g: GpuId, e: ProbeEvent)
    requires Inv(s)
    ensures Inv(Step(s, P(g, e)))
  {
    if e.EndProbe? && s.prober.boot.Passing? && s.prober.boot.queue != [] { PopQueue(s.prober.boot.queue); }
  }

  lemma BootKeepsInv(s: State, e: BootEvent)
    requires Inv(s)
    ensures Inv(Step(s, B(e)))
  {
    if s.prober.boot.Passing? && s.prober.boot.queue != [] { PopQueue(s.prober.boot.queue); }
  }

  /** A request frees rows and never makes one busier or forgets that it was probed. */
  lemma RequestOnlyFrees(db: Db, disp: Dispatcher, cancels: map<TaskId, set<GpuId>>, e: RequestEvent, g: GpuId)
    ensures var rows' := RequestDb(db, disp, cancels, e).rows;
      g in rows' ==>
        && g in db.rows && rows'[g].probed == db.rows[g].probed
        && (InUse(rows'[g]) ==> InUse(db.rows[g])) && (rows'[g].busy ==> db.rows[g].busy)
  {
  }

  lemma RequestKeepsInv(s: State, e: RequestEvent)
    requires Inv(s)
    ensures Inv(Step(s, R(e)))
  {
    var db' := RequestDb(s.db, s.disp, s.cancels, e);
    forall g {:trigger db'.rows[g]} | g in db'.rows
      ensures g in s.db.rows && (InUse(db'.rows[g]) ==> InUse(s.db.rows[g])) && (db'.rows[g].busy ==> s.db.rows[g].busy)
    {
      RequestOnlyFrees(s.db, s.disp, s.cancels, e, g);
    }
    assert ProbesOk(s.prober.probes, s.disp.claimed, db'.rows);
  }

  lemma StepKeepsInv(s: State, e: Event)
    requires Inv(s)
    ensures Inv(Step(s, e))
  {
    match e
    case D(d) => DispatcherKeepsInv(s, d);
    case P(g, p) => ProbeKeepsInv(s, g, p);
    case B(b) => BootKeepsInv(s, b);
    case R(r) => RequestKeepsInv(s, r);
  }
}
