# Verified model of the disc-ripping and transcoding pipeline

A Dafny 4.11 model of the parts of the system where state is shared, retried or recovered, and proofs of what
they keep. `dafny verify dfyconfig.toml` checks everything.

## What is modelled

**GPU claims and probes.** One event loop interleaves the dispatcher's claims with boot and on-demand probes,
cancels and sweeps. `GpuProtocol` is the state machine: committed rows, the in-process id sets, and where each
coroutine stands between two awaits. `GpuClaims` says exactly how a claim is answered; `GpuGuarantees` and
`GpuBootPass` prove safety over every run;
`GpuCoordinator` has the code's own loops and set updates, each proved to be a step of that machine.

**Session applications and transcode tasks.** `Pipeline` has every transaction that writes a job, an application
or a task, with the partial unique index as the reason to abort. `PipelineGuarantees` and `PipelineSettling`
prove the invariant, the index, isolation between jobs, drain order, finite runs of a task and settling.
`FanOutOutcome` and `TaskSettling` say from the rows alone how each transaction ends. `SessionStore` has the loops
(collision search, eviction, fan-out, retry, sweeps) over one database session.
`SpawnPass` is one dispatcher pass with its commits and rollbacks, `SpawnTicks` one pass after the other.

**Output paths.** `PathSanitize`, `PathTemplate`, `PathPieces`, `PathValidation`, `TrackPaths`, `SegmentTidy`,
`CustomNames` and `TrackOutputs` are the template language, its validator, its two renderers, the operator's own
file names and the path of every track.

**The ripper.** `RipResume` is the rip loop that resumes after the drive dropped off the bus. `DrivePoll` is the
insertion detector and the poll loop around it.

**Self-contained cores.** `DriveReconcile`, `FileMove`, `PassthroughProtocol`, `HandBrakeProgress`,
`DiscFolders`, `RespawnLimiter`, `IsoRips`, `DockerHealing`, `RipperManager` and `ImageCache`.

Docker, the drives, MakeMKV, HandBrake, the clock, the network and the file system's failures are parameters: a
script of outcomes, or a function with a stated contract. Two contracts matter: `RipResume.Honest` (a rip reports
every track it does not skip exactly once and writes only into its own directory) and the atomicity of a rename.

## Where the code does less than its documentation

* `validate_template` accepts the empty template and previews it as empty text, although the comment beside the
  call says that it fails (`PathValidation.EmptyTemplateAccepted`). The API schema refuses it earlier.
* Non-empty required values are not enough for a non-empty path: a blank value next to a dropped optional token
  leaves nothing. `PathValidation.RendersForEveryContext` says for which templates that can happen; with
  sanitised values, which are never blank, it cannot (`TrackOutputs.ValidatedTemplateResolves`).
* A task that holds a device and is deleted without a release leaves it BUSY with no claimant until the next boot:
  by a cancel that races the claim's commit (`GpuGuarantees.CancelRaceOrphansGpu`), and without any race by the
  overwrite eviction (auto_session.py:1050-1068) and by the cascade of a job's deletion (routers/jobs.py:917), which
  do not release devices (`GpuGuarantees.DropOrphansGpu`). `GpuGuarantees.OrphanExactly` is the exact condition over
  runs. A task that fails while still queued (transcode_dispatcher.py:956-984) keeps its device as well
  (`GpuGuarantees.StrandedArises`, `GpuGuarantees.StrandedEnds`).
* A task whose container dies before it claims the task keeps its device; when all devices are held so, nothing
  but the end or the claim of a holder frees them (`GpuGuarantees.QueuedHoldersWedgeGpus`, reached in
  `GpuGuarantees.OneTaskWedges`, left exactly as `GpuGuarantees.WedgedEnds` says).
* A claim that read the rows before a probe wrote its result can still fall back to the CPU right after that
  probe ended (`GpuBootPass.StaleSelectFallsBack`; `GpuBootPass.StaleFallbackExactly` is the exact condition).
* A job that is put back to ripping keeps its queued tasks (`PipelineGuarantees.PutBackKeepsTask`;
  `PipelineGuarantees.TaskOfUnrippedJob` is the exact condition).
* A container that was started and has not claimed its task is not counted against the cap, and the next tick's
  second start of its task fails on the name and costs an attempt (`SpawnTicks.CapExceeded`,
  `SpawnTicks.CanOverfill`, `SpawnTicks.SlowClaimFails`).
* Two drives without by-id links behind one SCSI host have the same port and end up on one row
  (`DriveReconcile.SharedPortSharesRow`; `DriveReconcile.SharedRowIff` is the exact condition). When both are new
  they become two rows with one port (`DriveReconcile.TwinsShareAPort`), and the next pass marks one absent
  (`DriveReconcile.SecondPassIsIdentity` says exactly which scans settle in one pass).
* A disc swapped while a rip is under way is never started (`DrivePoll.SwapDuringRipIsSwallowed`;
  `DrivePoll.DiscIsStartedAtOnce` is the exact condition).
* `move_tree` shows its destination while it is incomplete, where `transcode_none` does not, and a failed copy
  leaves it there, so that every retry is refused until somebody deletes it; the contracts of
  `FileMove.Disk.MoveTree` and `FileMove.Disk.MoveTwice` say exactly when.
* A retry keeps a task's attempts, so a task can be attempted more often than configured and a queued one can have
  no attempt left (`SpawnTicks.BoundIsReached`; `SpawnTicks.OverspentExactly` and `SpawnTicks.SpentExactly` are the
  exact conditions).
* A cancelled ISO job whose status its ripper or an operator writes afterwards is no longer abandoned
  (`IsoRips.CancelledStatus`).
* A store that fails on the second file leaves the index with the old type over the new bytes
  (`ImageCache.TornHit`; the contract of `ImageCache.Cache.Retrieve` is the exact condition).
* The disc-folder walk finds children of the root even with a depth limit of zero
  (`DiscFolders.FoundExactly`).
* An image cache with a cap of zero raises on every store that fits (`ImageCache.Cache.Store`).

## Model

| member | source | states |
|---|---|---|
| GpuGuarantees.ProbeExcludesClaim | services/backend/arm_backend/gpu_probe_runner.py:184-219 | In no interleaving of claims, commits, rollbacks, releases, probes and cancels does a probe run on a device while a transcode claim holds it, be the claim uncommitted in this process or committed as BUSY. |
| GpuGuarantees.ClaimTakesFreeRow | services/backend/arm_backend/transcode_dispatcher.py:920-954 | The device a claim picks from its select, however old that select is, is at that moment not being probed, not claimed and not BUSY. |
| GpuGuarantees.ClaimantIsBusy | services/backend/arm_backend/transcode_dispatcher.py:742-816 | In every reachable state a device with a claimant is BUSY and its claimant is an existing task. |
| GpuGuarantees.OnlyBootFreesOrphan | services/backend/arm_backend/main.py:96-117 | A BUSY device whose claimant was nulled stays so under every event but the boot release and its own deletion (if and only if). |
| GpuGuarantees.OrphanArises | services/backend/arm_backend/transcode_dispatcher.py:1386-1407 | In any state that keeps the invariant an event makes a device BUSY without a claimant if and only if it deletes the claimant, unlocked, and does not release the device: an eviction or a job's cascade, or a cancel whose first read did not find the device. |
| GpuGuarantees.OrphanExactly | services/backend/arm_backend/auto_session.py:1050-1068 | Over every run a device is such an orphan if and only if an event of that kind left it behind and no boot release and no deletion of its row came after. |
| GpuGuarantees.DropOrphansGpu | services/backend/arm_backend/routers/jobs.py:917-918 | Counterexample without a race: a queued task that has a device is deleted with its job, or evicted. |
| GpuGuarantees.StrandedArises | services/backend/arm_backend/transcode_dispatcher.py:956-984 | A device stays BUSY while it loses its last queued or running holder if and only if the holder is deleted without a release or fails while it is still queued. |
| GpuGuarantees.StrandedEnds | services/backend/arm_backend/main.py:96-117 | It is free or held again if and only if the boot release runs, its row is deleted, its holder is put back, or a cancel found it. |
| GpuGuarantees.CancelRaceOrphansGpu | services/backend/arm_backend/transcode_dispatcher.py:1386-1407 | Counterexample: a claim that commits between the two reads of a cancel leaves a BUSY device nobody holds. |
| GpuGuarantees.QueuedHoldersWedgeGpus | services/backend/arm_backend/transcode_dispatcher.py:390-438 | When every device is held by a task that is still queued (its container died before claiming it), no run of sweeps, passes, probes and boot releases frees one and no claim gets one, until a holder is claimed, deleted or failed. |
| GpuGuarantees.WedgedEnds | services/backend/arm_backend/transcode_dispatcher.py:390-438 | An event ends that state if and only if it is the claim, the drop, the failing or the effective cancel of a holder whose row is not locked. |
| GpuGuarantees.OneTaskWedges | services/backend/arm_backend/transcode_dispatcher.py:742-816 | The state is reached from the start with one device and one task, as soon as its container was started. |
| GpuBootPass.ListedRowStaysAwaiting | services/backend/arm_backend/gpu_probe_runner.py:283-320 | From its listing to the end of its own probe a never-probed row counts as awaiting after every event. |
| GpuBootPass.NeverFallsBack | services/backend/arm_backend/transcode_dispatcher.py:920-940 | While a never-probed row that could serve the encoder and container is owed its probe, the claim queues the task or picks a verified device; never the CPU, never a failure. |
| GpuBootPass.StaleSelectFallsBack | services/backend/arm_backend/transcode_dispatcher.py:909-940 | Counterexample at the end of that window: a claim whose select is older than the probe's write decides after the probe ended and falls back. |
| GpuBootPass.StaleFallbackExactly | services/backend/arm_backend/transcode_dispatcher.py:909-940 | In every reachable state: if a claim for any device falls back although a device would serve it by now, that device was unfit in the claim's select; the claim falls back if and only if no device of its select was fit and none that was never probed is still owed its probe. |
| GpuCoordinator.Survey | services/backend/arm_backend/transcode_dispatcher.py:915-932 | One pass over the rows answers the claim's three questions: is a device eligible, is one a candidate, is one awaiting its probe. |
| GpuCoordinator.BestFree | services/backend/arm_backend/transcode_dispatcher.py:941-948 | The device picked is free and no free candidate has a better vendor rank and device path; none only if no candidate is free. |
| GpuCoordinator.GpuCoordinator.ClaimGpuForTask | services/backend/arm_backend/transcode_dispatcher.py:866-954 | The claim's answer is the one the decision table allows for the rows and the in-process sets, and exactly the picked device is marked claimed. |
| GpuClaims.ClaimExactly | services/backend/arm_backend/transcode_dispatcher.py:866-954 | For every encoder and container, from the rows and the id sets alone, exactly when the claim gives each answer: the CPU fallback only for an encoder of any vendor with no fit device and none that may be fit still owed its probe; a failure for an unknown encoder, a vendor that cannot write the container, or a pinned one without hope; a device if a usable one is there; else the task waits; a CPU or preset encoder never looks at a device. |
| GpuClaims.ClaimedDevice | services/backend/arm_backend/transcode_dispatcher.py:941-954 | The device handed out is enabled, probed, of the pinned vendor, has the codec verified, is not BUSY and not being probed, and no such device is preferred to it. |
| GpuClaims.ProbeRecords | services/backend/arm_backend/gpu_probe_runner.py:440-462 | A finished probe marks its row as probed and records what it verified, or leaves the encoders as they were when the device was never tested; nothing else changes. |
| GpuClaims.BootPassStarts | services/backend/arm_backend/gpu_probe_runner.py:221-320 | A boot pass of a capable backend reserves exactly the enabled rows that were never probed or verified nothing and starts with the first; without the capability it ends at once. |
| GpuCoordinator.GpuCoordinator.ReleaseGpuForTask | services/backend/arm_backend/transcode_dispatcher.py:130-140 | Exactly the rows the task claims go back to AVAILABLE. |
| GpuCoordinator.GpuCoordinator.ReleaseOrphanedGpuClaims | services/backend/arm_backend/main.py:96-117 | The boot loop computes the protocol's boot release. |
| GpuCoordinator.GpuCoordinator.StartProbe | services/backend/arm_backend/gpu_probe_runner.py:200-219 | Reserving a probe is the protocol's step and succeeds exactly when it changes the reservation. |
| GpuCoordinator.GpuCoordinator.CheckInUse | services/backend/arm_backend/gpu_probe_runner.py:184-198 | The in-use check is the protocol's step; the probe goes on exactly when the check lets it. |
| GpuCoordinator.GpuCoordinator.EndProbe | services/backend/arm_backend/gpu_probe_runner.py:322-338 | However a probe ends, its reservation goes and the boot pass moves to its next row. |
| GpuCoordinator.GpuCoordinator.StartBootPass | services/backend/arm_backend/gpu_probe_runner.py:221-239 | The listing flag is up before the start of the pass returns. |
| GpuCoordinator.GpuCoordinator.ReserveTargets | services/backend/arm_backend/gpu_probe_runner.py:283-305 | All listed rows are pending before the listing flag comes down. |
| GpuCoordinator.GpuCoordinator.ProbeNext | services/backend/arm_backend/gpu_probe_runner.py:305-320 | A row of the pass is probed, or skipped when it is being probed or claimed. |
| PipelineGuarantees.EveryRun | services/backend/arm_backend/auto_session.py:559-717 | In every run: at most one live task a path; no task for a job never ripped; a waiting application has no tasks; a queued task has attempts left unless its last transition put it back. |
| PipelineGuarantees.TaskOfUnrippedJob | services/backend/arm_backend/routers/ripper.py:985-998 | In every run the job of a task is not ripped if and only if it was put back to ripping since its last finished rip. |
| PipelineGuarantees.PutBackKeepsTask | services/backend/arm_backend/routers/ripper.py:985-998 | Counterexample to a task only with a finished rip: a ripped job with a queued task is put back to ripping, and the task stays queued. |
| PipelineGuarantees.StepKeepsInv | services/backend/arm_backend/transcode_dispatcher.py:357-540 | Every transaction (claim, failed spawn, stale reset, settle, retry, delete, apply, park, drain, sweep, cascade) keeps that invariant, the unique index included. |
| PipelineGuarantees.FanOutIndex | packages/arm_common/arm_common/models/transcode_task.py:20-29 | A fan-out trips the partial unique index if and only if it reaches its insert, overwrites, and its own resolved paths repeat. |
| PipelineGuarantees.FanOutKeepsOthers | services/backend/arm_backend/auto_session.py:592-694 | No fan-out, and so no apply and no eviction, changes an application or a task of another job. |
| PipelineGuarantees.FannedOutTasks | services/backend/arm_backend/auto_session.py:672-717 | A fan-out that succeeds is of a ripped job, takes no path that is taken unless it overwrites and then none of another job, and leaves its application queued with one fresh task for every path, at least one, and no other; any other outcome leaves the tasks alone. |
| FanOutOutcome.OutcomeExactly | services/backend/arm_backend/auto_session.py:540-665 | From the task rows, the files on disk and the resolved paths alone, exactly when a fan-out succeeds and exactly when each refusal comes: it succeeds if and only if the media fit, the job is ripped, there are paths, and none collides, or it overwrites and every live task at them is the job's own and none of them running. |
| FanOutOutcome.DisplacedExactly | services/backend/arm_backend/auto_session.py:994-1084 | A fan-out that succeeds takes away exactly the job's own tasks at colliding paths and exactly the applications that leaves empty, and changes no other task. |
| FanOutOutcome.RefusalLeaves | services/backend/arm_backend/auto_session.py:559-630 | A refused fan-out leaves one application waiting, for the rip or for outputs, unless one waited already or was given; any other refusal changes nothing. |
| FanOutOutcome.ApplyMakesTasks | services/backend/arm_backend/auto_session.py:540-717 | An apply makes tasks if and only if that holds and the paths differ. |
| PipelineGuarantees.DrainKeeps | services/backend/arm_backend/auto_session.py:745-910 | A drain never trips the index, removes or changes no task that exists, and touches no other job. |
| PipelineGuarantees.EarlierWins | services/backend/arm_backend/auto_session.py:759-910 | Of two parked applications that want one path the earlier gets it; the later stays parked with a collision. |
| PipelineSettling.NewTaskMeansRipped | services/backend/arm_backend/auto_session.py:559-590 | A task only ever appears for a job that is ripped at that moment, in an application that is then queued. |
| PipelineSettling.TransitionFalls | services/backend/arm_backend/transcode_dispatcher.py:837-854 | Every transition of a task but a retry lowers a measure of attempts left and status. |
| PipelineSettling.TaskRunIsFinite | services/backend/arm_backend/passthrough_executor.py:173-177 | Between retries a task's row changes at most twice for each configured attempt, and twice more. |
| PipelineSettling.SweepLeavesNoOrphan | services/backend/arm_backend/transcode_dispatcher.py:444-540 | After the orphan sweep every queued or running application past the grace window has a live task; one without tasks failed, one with only finished tasks is settled by them, no other changed. |
| TaskSettling.TaskEventExactly | services/backend/arm_backend/transcode_apply.py:445-485 | An event on a task takes effect exactly in the state it is about and when the path it then claims is free; its row follows (a completed task is done at the reported path, a failed one failed, attempts counted), no other row and application changes, and its application is settled by its tasks exactly when none of them is live any more. |
| TaskSettling.UnsettledArises | services/backend/arm_backend/transcode_apply.py:445-485 | A queued or running application comes to have tasks but no live one if and only if its last live task is deleted while others are left, or an overwriting apply evicts all its live tasks but not all tasks. |
| TaskSettling.WaitsForLiveTask | services/backend/arm_backend/auto_session.py:540-717 | Over every run a queued or running application that has tasks has a live one, unless at some point its last live task was so deleted or evicted. |
| TaskSettling.RetryExactly | services/backend/arm_backend/auto_session.py:266-300 | Putting an application's tasks back works if and only if it has a failed one and every path they then claim is free; then exactly its failed tasks are queued, attempts kept, and an ended application runs again. |
| TaskSettling.DrainTurnExactly | services/backend/arm_backend/auto_session.py:745-910 | A parked application is filled at its turn if and only if nothing holds it, its job is ripped, its template gives paths, and none of them is taken after the turns before it. |
| TaskSettling.ParkExactly | services/backend/arm_backend/auto_session.py:559-590 | Parking adds one waiting application of the session, unless one waits already. |
| TaskSettling.CancelExactly | services/backend/arm_backend/auto_session.py:720-742 | Cancelling what waits for a job cancels exactly its waiting applications. |
| TaskSettling.CascadeExactly | services/backend/arm_backend/routers/jobs.py:917-918 | Deleting an application or a job takes exactly its applications and their tasks along. |
| PipelineSettling.StaleSweepRows | services/backend/arm_backend/transcode_dispatcher.py:357-440 | The stale sweep queues each listed claim with attempts left, fails the others, and changes no other task. |
| SessionStore.Store.FindCollisions | services/backend/arm_backend/transcode_apply.py:263-346 | Exactly the paths that are live, on disk or repeated are reported, each once, for the first reason that holds, with the owning job of a live task; the taken ones first as they first appear, then the others as they repeat. |
| SessionStore.ForeignShows | services/backend/arm_backend/auto_session.py:630-660 | A live task of another job at one of the paths shows as a foreign collision, and only then. |
| SessionStore.Store.EvictCollidingTasks | services/backend/arm_backend/auto_session.py:994-1084 | Refused exactly when an own task at the paths is running; else exactly the own tasks there go, and exactly the applications that empties. |
| SessionStore.Store.FanOutTasks | services/backend/arm_backend/auto_session.py:478-717 | The fan-out, with its collision list, eviction and insert loops, is the transaction the guarantees are about, outcome included. |
| SessionStore.Store.RetryFailedTasks | services/backend/arm_backend/auto_session.py:1094-1119 | Exactly the application's failed tasks go back to the queue, counted, attempts kept. |
| SessionStore.Store.SweepStaleClaims | services/backend/arm_backend/transcode_dispatcher.py:357-440 | The loop over stale claims, settling applications on the way, is the stale sweep. |
| SessionStore.Store.SweepOrphanedApplications | services/backend/arm_backend/transcode_dispatcher.py:444-540 | The loop over candidates is the orphan sweep and counts the applications it acted on. |
| SpawnPass.SpawnPending | services/backend/arm_backend/transcode_dispatcher.py:563-822 | A pass is a sequence of turns, each on the rows the previous one committed as others changed them since, to the end of the queue or to a release whose commit raised; it starts at most max(0, cap - in progress) containers and leaves nothing uncommitted. |
| SpawnPass.Session.TakeTurn | services/backend/arm_backend/transcode_dispatcher.py:640-816 | One iteration, with its commits, rollbacks and explicit release, has the effect of the decision table on the committed rows and no uncommitted rest. |
| SpawnPass.Session.Start | services/backend/arm_backend/transcode_dispatcher.py:742-816 | Start, commit, and on failure roll back, release and count: a claim stays committed only for the container it started; a release that cannot be committed ends the pass and counts nothing. |
| SpawnPass.TurnExactly | services/backend/arm_backend/transcode_dispatcher.py:640-816 | Exactly when a turn ends in each of its ways, from the task's row, the pass's settings and counters and what the turn meets; an encode task is examined and a container counted exactly when it should. |
| SpawnPass.TurnLeaves | services/backend/arm_backend/transcode_dispatcher.py:660-816 | What a turn leaves of its task: moved, it is done exactly when the move succeeded, with one attempt more; refused, failed; not started, one attempt more and failed with the last; else untouched; and only a started container's device is claimed. |
| SpawnPass.PassBounds | services/backend/arm_backend/transcode_dispatcher.py:563-640 | Containers started are within the free slots, encode tasks examined within the scan limit. |
| SpawnPass.EveryTaskGetsItsTurn | services/backend/arm_backend/transcode_dispatcher.py:672-700 | Every turn taken moves a passthrough task that is still queued then, however many encode tasks come before it; a container is tried only while encoding is enabled and possible; a held, waiting, skipped or aborted turn leaves every row as it is; only an aborted turn leaves tasks without one. |
| SpawnPass.TurnKeepsOthers | services/backend/arm_backend/transcode_dispatcher.py:742-816 | A turn writes no other task's row, drops no claim, and makes one only for the container it started. |
| SpawnPass.ClaimOutlivesFailures | services/backend/arm_backend/transcode_dispatcher.py:742-816 | A claim committed in a pass is still committed at its end whatever later turns run into, unless somebody else releases it. |
| SpawnTicks.ContainersWithinTick | services/backend/arm_backend/transcode_dispatcher.py:611-622 | From one tick to the next there are at most as many containers as the cap, or as the tasks in progress if those are more, and one more for every container that had not claimed its task when the pass counted. |
| SpawnTicks.CapHolds | services/backend/arm_backend/transcode_dispatcher.py:611-622 | Over any run whose ticks each find the task of every container in progress there are never more containers than the cap. |
| SpawnTicks.CanOverfill | services/backend/arm_backend/transcode_dispatcher.py:611-700 | Right after a tick has counted, the turns of its pass can go over the cap if and only if the containers there are, with the most startable tasks that slots and scan limit allow, are more than the cap. |
| SpawnTicks.CapExceeded | services/backend/arm_backend/transcode_dispatcher.py:1215-1234 | Counterexample: with a cap of one, a second tick before the first container claimed its task fails that task's second start on the container name and starts the next task's container. |
| SpawnTicks.AttemptsHold | services/backend/arm_backend/transcode_dispatcher.py:837-854 | Over any number of passes, sweeps, claims and retries a task is attempted, counted failed starts included, at most as often as configured and once more for every retry that put it back with no attempts left. |
| SpawnTicks.SpentExactly | services/backend/arm_backend/auto_session.py:1094-1119 | Over every run a queued task has no attempts left if and only if the last change of its row was a retry that put it back with none left. |
| SpawnTicks.OverspentExactly | services/backend/arm_backend/routers/transcodes.py:133-154 | Over every run a task has been attempted more often than configured if and only if, since it was added, it was attempted after such a retry. |
| SpawnTicks.BoundIsReached | services/backend/arm_backend/auto_session.py:1094-1119 | Counterexample to the configured number as a limit, from the empty table: for every limit and every n, a task that cannot be started and is put back n times after it failed has been attempted n times too often. |
| SpawnTicks.SlowClaimFails | services/backend/arm_backend/transcode_dispatcher.py:837-854 | A task that cannot be started, for one because its running container is slow to claim it and has the name, loses an attempt with every tick that tries it, and fails if and only if it had no more attempts left than there were ticks; its container runs on. |
| PathSanitize.SanitizeSafe | services/backend/arm_backend/path_sanitize.py:20-31 | A sanitised value is one safe path component: no forbidden character, single spaces only, no dash, dot or space at its ends. |
| PathSanitize.SafeIsFixed | services/backend/arm_backend/path_sanitize.py:20-31 | Exactly the safe values are kept as they are, so sanitising is idempotent. |
| PathSanitize.SanitizeKeepsLetters | services/backend/arm_backend/path_sanitize.py:20-31 | No ordinary character is lost, added or moved; the result is empty exactly when there was none. |
| PathTemplate.ExpandSegments | services/backend/arm_backend/path_template.py:100-131 | When an expansion succeeds (if and only if), that its segments are those of the filled-in text, and that it is that text unless an optional token was dropped. |
| PathPieces.WrappedOptional | services/backend/arm_backend/path_template.py:16-20 | An optional token in brackets after a space vanishes with both when empty and leaves the rest alone; with a value it shows as written. |
| PathPieces.BareOptional | services/backend/arm_backend/path_template.py:16-20 | An optional token after a space, without brackets, vanishes with the space when empty and leaves the rest alone; with a value both show. |
| PathPieces.PiecewiseAgrees | services/backend/arm_backend/transcode_apply.py:174-188 | Expanding piece by piece between slashes gives the segments of expanding the whole template, for every template and context. |
| PathPieces.NoLevelAdded | services/backend/arm_backend/path_template.py:100-131 | With slash-free values a rendered path has at most as many levels as the template, exactly as many when nothing was dropped. |
| PathValidation.AcceptedRenders | services/backend/arm_backend/path_template.py:162-186 | A non-empty template the validator accepts renders to a non-empty path for every context whose required tokens show something, whichever optional ones are empty. |
| PathValidation.ValidateExactly | services/backend/arm_backend/path_template.py:162-186 | A template is accepted if and only if its tokens are of the media, neither the extension nor the slug is optional, both come with a preset (an ISO's extension without), and something of it is seen when its optional tokens, if any, are dropped. |
| PathValidation.TokenMedia | services/backend/arm_backend/path_template.py:22-60 | Which media each token may be used for. |
| PathValidation.PlainFill | services/backend/arm_backend/path_template.py:100-131 | A template without optional tokens is filled in item by item, every character as it is and every token by its value. |
| PathValidation.FillingInKeepsPath | services/backend/arm_backend/path_template.py:100-131 | Giving an empty optional token a value never turns a path into nothing. |
| PathValidation.RendersForEveryContext | services/backend/arm_backend/path_template.py:100-131 | A template renders to a non-empty path for every context with non-empty required tokens if and only if no token is optional only or a character of its own is always seen. |
| PathValidation.BlankTitleFails | services/backend/arm_backend/path_template.py:162-186 | Counterexample: an accepted template renders to nothing for a blank, non-empty title and no year. |
| PathValidation.EmptyTemplateAccepted | services/backend/arm_backend/path_template.py:181-186 | The validator accepts the empty template, although the comment beside it says that it fails. |
| TrackPaths.Pad2Number | services/backend/arm_backend/transcode_apply.py:78-78 | The zero-padded index is digits only and gives the index back. |
| TrackPaths.ContextSlashFree | services/backend/arm_backend/transcode_apply.py:70-143 | No value a track is rendered with holds a path separator; the path theorem for a track rests on it. |
| TrackPaths.ContextShowsNames | services/backend/arm_backend/transcode_apply.py:70-143 | Every ordinary character of the metadata shows in its token, in order and no other: the track's own title over the job's, the show, the music names, the title of the track by its index; slug and extension as they are. |
| TrackPaths.ContextShowsNumbers | services/backend/arm_backend/transcode_apply.py:70-143 | Index, year, season and disc read back from their tokens, the track's own year and season over the job's. |
| TrackPaths.EpisodeReads | services/backend/arm_backend/transcode_apply.py:98-106 | An episode's number, and a double episode's last number, read back from its token. |
| TrackPaths.DurationReads | services/backend/arm_backend/transcode_apply.py:61-67 | Hours and minutes read back from the duration's token; only no duration shows nothing. |
| SegmentTidy.TidyKeepsSolid | services/backend/arm_backend/transcode_apply.py:146-171 | Tidying a segment drops exactly the E of an S01E that no letter or digit follows; every other character but white space, dashes and underscores stays, in order; no level is added and no separator left at either end. |
| SegmentTidy.TidyIsCalm | services/backend/arm_backend/transcode_apply.py:146-171 | A tidied segment has single spaces only and no two dashes with nothing but dashes and spaces between. |
| SegmentTidy.TidyStays | services/backend/arm_backend/transcode_apply.py:146-171 | A segment that is so already, has no dangling E, no separator at its ends and no dash before its extension stays as it is. |
| TrackPaths.SuffixRoundTrip | services/backend/arm_backend/transcode_apply.py:191-196 | The track index can be read back from a suffixed path, whatever the name, its extension and the directories. |
| TrackPaths.SuffixKeepsName | services/backend/arm_backend/transcode_apply.py:191-196 | The suffix goes between a name and its extension and changes neither. |
| TrackPaths.RenderersAgree | services/backend/arm_backend/transcode_apply.py:174-188 | When every episode token has a value, the segment renderer and the whole-template renderer agree on the segments. |
| TrackOutputs.ComputeOutputs | services/backend/arm_backend/transcode_apply.py:209-260 | Every relevant track gets its own path, in order, under its custom file name if it has one; or the first one that has none is reported, with the reason. |
| TrackOutputs.CandidatesExactly | services/backend/arm_backend/transcode_apply.py:199-224 | Exactly the tracks of the session's kind that are not excluded are given a path, each as often as it is there. |
| TrackOutputs.CandidatesInOrder | services/backend/arm_backend/transcode_apply.py:209-224 | They keep the order they came in. |
| TrackOutputs.RefusedForToken | services/backend/arm_backend/transcode_apply.py:149-163 | A track is refused for a missing value if and only if a token used without a question mark has none, unless it is one of the two episode tokens and the track is no episode. |
| TrackOutputs.FullTrackPath | services/backend/arm_backend/transcode_apply.py:224-247 | With a value for every demanded token a track gets the whole template, filled in. |
| TrackOutputs.PathNonEmpty | services/backend/arm_backend/transcode_apply.py:221-247 | No track is given an empty path. |
| TrackOutputs.TrackPathLevels | services/backend/arm_backend/transcode_apply.py:221-247 | Whatever the metadata, a track's path has no more levels than the template. |
| TrackOutputs.TrackLevels | services/backend/arm_backend/transcode_apply.py:221-260 | Whatever the job's and track's metadata and whatever file name the operator typed, a track's path is not empty and has no more levels than the template; a custom name is its last level, under the folders and with the extension the template gave. |
| CustomNames.RenamedKeepsFolders | services/backend/arm_backend/transcode_apply.py:248-259 | A custom name replaces exactly the last component of a path, stays one component whatever was typed, and keeps the extension of the rendered file. |
| CustomNames.PlainNameUsed | services/backend/arm_backend/transcode_apply.py:248-259 | A custom name that is one safe component without a dot is used as it is, before the rendered extension. |
| TrackOutputs.ValidatedTemplateResolves | services/backend/arm_backend/path_template.py:162-186 | A template that passed the validator gives every track of every job a non-empty path, as long as its required tokens have values. |
| TrackOutputs.BonusTitlesDistinct | services/backend/arm_backend/transcode_apply.py:240-247 | The template never gives two titles rendered with an empty episode one path when their track indices differ and it has no track token, even across discs; only a custom name can. |
| RipResume.RipJob.ExecuteRip | services/ripper/arm_ripper/job_controller.py:844-993 | Any pattern of drive losses ends within MAX_DEVICE_RESUMES + 1 passes, each of which is what its start calls for; every track gets exactly one terminal update and one IN_PROGRESS exactly when it was started or lost in the end; every file reported done is there unchanged. |
| RipResume.NextPassExactly | services/ripper/arm_ripper/job_controller.py:944-962 | Another pass follows if and only if a title failed because the drive had gone, fewer than three passes came before, and the drive came back. |
| RipResume.PassStartsWith | services/ripper/arm_ripper/job_controller.py:963-977 | The first pass starts with everything; a later one skips exactly the titles the one before did not lose and finds exactly the files that titles done so far have written. |
| RipResume.ToldInTheEnd | services/ripper/arm_ripper/job_controller.py:884-962 | In the end exactly what some pass reported done is done, with its file, and failed is exactly what failed while the drive was there or was lost by the last pass. |
| RipResume.RipJob.RunPass | services/ripper/arm_ripper/job_controller.py:934-963 | After a pass every track is settled or left for the resume, never both, as its callback said; left are exactly those that failed because the drive had gone. |
| RipResume.RipJob.OnTrackDone | services/ripper/arm_ripper/job_controller.py:884-917 | A finished title is kept and reported, a failed one is left for the resume exactly when the drive went away, else reported. |
| RipResume.RipJob.FailUnfinished | services/ripper/arm_ripper/job_controller.py:1038-1055 | Each unfinished track gets one failure, with an IN_PROGRESS before it only if it had none; no other track gets anything. |
| RipResume.RipJob.RemovePartialOutputs | services/ripper/arm_ripper/job_controller.py:1184-1190 | Exactly the files of finished titles survive the clean-up. |
| DrivePoll.InsertDetector.Update | services/ripper/arm_ripper/drive_poll.py:109-125 | One reading moves the detector by the rule the lemmas are about. |
| DrivePoll.FiresExactly | services/ripper/arm_ripper/drive_poll.py:73-125 | For every stream a reading fires exactly when it is DISC_OK and since each earlier fire there was a reset, a no-media reading or a long enough NOT_READY run. |
| DrivePoll.PollLoop.Tick | services/ripper/arm_ripper/main.py:350-390 | One tick of the loop: a reattached drive resets the detector before its reading is fed, a fire starts a rip unless one is under way. |
| DrivePoll.StartsExactly | services/ripper/arm_ripper/main.py:358-387 | For every stream of readings from the start of the loop a tick starts a rip if and only if its disc is the first since a re-arming, the node is known and every rip started before is over. |
| DrivePoll.DiscIsStartedAtOnce | services/ripper/arm_ripper/main.py:384-387 | Of a disc first seen at some tick, up to the next re-arming: a rip starts for it at all if and only if at that very tick the node was known and no rip was under way. |
| DrivePoll.FirstDiscAfterAbsenceStarts | services/ripper/arm_ripper/main.py:358-387 | After any absent run the first DISC_OK starts a rip, unless one is still under way (if and only if). |
| DrivePoll.SwapDuringRipIsSwallowed | services/ripper/arm_ripper/main.py:384-387 | Counterexample from the start of the loop: a disc, an open tray and another disc while the first rip is under way; the second disc is never started, not even after that rip, as long as the drive only reports the disc or nothing. |
| DriveReconcile.ReconcileDrives | services/backend/arm_backend/drive_scanner.py:192-264 | The loops over scan and rows compute the reconciled rows and count what they prune. |
| DriveReconcile.MatchExactly | services/backend/arm_backend/drive_scanner.py:207-215 | A drive meets the row with its link name, else the row without one on its port, and gets a new row exactly when there is neither. |
| DriveReconcile.RowFacts | services/backend/arm_backend/drive_scanner.py:160-230 | Whatever the scan, no row changes its lifecycle or loses its link name, a new row is detected, and a row that was met and has no ripper is present and seen now. |
| DriveReconcile.SharedRowIff | services/backend/arm_backend/drive_scanner.py:207-215 | Two scanned drives share a row exactly when both match one link name, or both fall through to one known port. |
| DriveReconcile.MatchInjective | services/backend/arm_backend/drive_scanner.py:207-215 | For every scan and table the matching is injective if and only if no two drives match one link name or fall through to one known port. |
| DriveReconcile.EveryDriveShown | services/backend/arm_backend/drive_scanner.py:207-253 | After a pass over any scan every drive that shares its row with no other has a row that shows it, as seen now unless a ripper owns its presence. |
| DriveReconcile.UnseenRow | services/backend/arm_backend/drive_scanner.py:233-253 | Whatever the scan, a row no drive matched is gone exactly when it is a detected one past the cut-off; else it is enrolled and untouched, or marked absent. |
| DriveReconcile.ReconcileKeepsUnique | services/backend/arm_backend/drive_scanner.py:160-189 | With distinct link names in the scan, link names stay unique; ports of rows without one stay unique if and only if the scan has no two new drives without link names on one unknown port. |
| DriveReconcile.ProtectedRows | services/backend/arm_backend/drive_scanner.py:225-253 | Whatever the scan, an enrolled or ignored row is never deleted and keeps its lifecycle; presence is never written on an enrolled one. |
| DriveReconcile.SecondPassIsIdentity | services/backend/arm_backend/drive_scanner.py:192-264 | A second pass with the same scan at the same time changes nothing if and only if, of every two drives that fall through to one port, the port is known and both are without link names. |
| DriveReconcile.TwinsShareAPort | services/backend/arm_backend/drive_scanner.py:73-82 | Counterexample: two new drives without link names behind one SCSI host become two rows with one port. |
| DriveReconcile.SharedPortSharesRow | services/backend/arm_backend/drive_scanner.py:76-85 | Counterexample: two drives without link names behind one SCSI host share a port and so a row, and the other row is marked absent. |
| FileMove.Disk.TranscodeNone | packages/arm_common/arm_common/fileops.py:124-180 | At every file-system call the source is as it was or the final path is complete, and the final path never shows partial data. It succeeds if and only if the source is there and the rename works, or it is a file, the copy opens, no cancel is seen, every chunk is written, and flush and replacement work; it is cancelled if and only if a cancel is seen before a write fails; else it fails, and then nothing is moved. |
| FileMove.Disk.CopyFile | packages/arm_common/arm_common/fileops.py:105-121 | Every state of a copy has a beginning of the source at the destination and is else unchanged; it succeeds, is cancelled or fails exactly as opening, cancels and writes call for. |
| FileMove.Disk.AtomicOutput | packages/arm_common/arm_common/fileops.py:80-102 | The final path changes once, to what the writer left, if and only if the writer did not raise, something lies at the temporary path, and flush and replacement work; else not at all. |
| FileMove.Disk.MoveTree | packages/arm_common/arm_common/fileops.py:196-237 | Exactly when a move is refused, succeeds, is cancelled or fails, from what its calls do. At every call the whole source or the whole destination is there; the destination is on show incomplete at some call if and only if the rename failed, the destination folder was made for a copy and the source has an entry; a failure leaves it on show if and only if it was renamed or made, a cancel if and only if something that was copied could not be removed. |
| FileMove.Disk.MoveTwice | packages/arm_common/arm_common/fileops.py:210-237 | After a failed move the next move of the folder is refused if and only if the first one made the destination; otherwise nothing has changed and a rename can still succeed. |
| PassthroughProtocol.DeletedStaysDeletedAndDoneIsMoved | services/backend/arm_backend/passthrough_executor.py:139-289 | Over every interleaving with cancels and deletions a deleted task never comes back, and DONE implies that the move finished. |
| PassthroughProtocol.ExecutorWritesItsOwnRow | services/backend/arm_backend/passthrough_executor.py:215-289 | The executor changes no row but the one it claimed. |
| PassthroughProtocol.RunsThrough | services/backend/arm_backend/passthrough_executor.py:139-300 | Nobody interfering, a queued task is claimed, moved and settled, done exactly when the move succeeded. |
| PassthroughProtocol.DeletedMidMove | services/backend/arm_backend/passthrough_executor.py:215-289 | A task deleted while its file moves stays deleted, and the executor is free again. |
| PassthroughProtocol.ClaimsExactly | services/backend/arm_backend/passthrough_executor.py:139-180 | A free executor claims exactly a queued task; the stale sweep puts back or fails exactly a running one. |
| HandBrakeProgress.ConsumeProgress | services/transcode/arm_transcode/handbrake.py:159-218 | Whatever the chunks, the callback gets the ticks of the whole text split at line breaks, without adjacent repeats. |
| HandBrakeProgress.LinesOfMore | services/transcode/arm_transcode/handbrake.py:149-156 | The complete lines of a text stay what they are when more text follows its remainder. |
| HandBrakeProgress.LinesExactly | services/transcode/arm_transcode/handbrake.py:149-156 | The lines of a text are its characters in order, cut at every break and nowhere else. |
| HandBrakeProgress.StretchesShortened | services/transcode/arm_transcode/handbrake.py:196-218 | The callbacks are the ticks with every stretch of one percentage shortened to its first tick. |
| HandBrakeProgress.NoRepeats | services/transcode/arm_transcode/handbrake.py:196-218 | Consecutive callbacks never repeat a percentage, and the last is the last one printed. |
| DiscFolders.Find | services/backend/arm_backend/disc_folders.py:46-73 | The result is sorted; the walk is cut short exactly when a full walk would exceed the budget; a full walk returns every disc folder once, a cut one some of them. |
| DiscFolders.FoundExactly | services/backend/arm_backend/disc_folders.py:46-73 | What a full walk finds is exactly the disc folders within the depth limit (a child of the root at any limit) whose ancestors below the root are shown, listed and no disc folders. |
| RespawnLimiter.Limiter.RespawnParked | services/backend/arm_backend/iso_rips.py:194-215 | A parked ripper is started exactly when its whole past allows it; its starts stay a crash window apart, with at most the budget in any budget window. |
| RespawnLimiter.MayStartExactly | services/backend/arm_backend/iso_rips.py:194-215 | A start is allowed if and only if the last one is ninety seconds ago and the third last an hour. |
| IsoRips.OneRipPerSource | services/backend/arm_backend/iso_rips.py:218-273 | Over every run no two live ISO drives share a source, and a job a cancel abandoned is never failed by the watchdog, whatever else is written of it. |
| IsoRips.CancelledStatus | services/backend/arm_backend/iso_rips.py:424-439 | After a cancel its job's status is the one its ripper or an operator last wrote since, and abandoned if neither did: no sweep and no other cancel writes it. |
| IsoRips.CreateExactly | services/backend/arm_backend/iso_rips.py:339-421 | A rip is accepted if and only if no request holds the lock, its source is not being ripped and fewer drives are live than the limit; it adds exactly one live drive with a fresh id. |
| IsoRips.CancelExactly | services/backend/arm_backend/iso_rips.py:424-439 | A cancel retires exactly a live drive and abandons exactly its unfinished latest job. |
| IsoRips.SweepExactly | services/backend/arm_backend/iso_rips.py:218-273 | The watchdog retires a live drive if and only if its container is gone for good and was not started again before its rip; exactly then its unfinished latest job fails. |
| IsoRips.CreateRespectsCap | services/backend/arm_backend/iso_rips.py:339-421 | Whatever happens between the check and the commit, a new rip never takes the live drives past the limit it was checked against. |
| DockerHealing.HealingDockerClient.ReplacementFor | services/backend/arm_backend/docker_client.py:118-149 | One turn under the lock decides by the shared client and the last failed rebuild as the rule says. |
| DockerHealing.HealingDockerClient.Call | services/backend/arm_backend/docker_client.py:108-116 | A call runs once, or twice with the second run on the client the heal named. |
| DockerHealing.HealExactly | services/backend/arm_backend/docker_client.py:118-149 | A failed call is retried if and only if its transport died, clients can be built, and another thread has replaced the client or no rebuild failed in the last thirty seconds and this one works; what stands, what is reported, and what is remembered of a rebuild are as exact. |
| DockerHealing.IsTransportDeath | services/backend/arm_backend/docker_client.py:47-61 | True exactly when some exception of the cause chain is a transport error, also when the chain has a cycle. |
| DockerHealing.OneRebuildForAll | services/backend/arm_backend/docker_client.py:108-149 | However many threads meet a dead client: it is replaced at most once, every call runs at most twice, and failed rebuilds are at least the retry interval apart. |
| RipperManager.Manager.Reconcile | services/backend/arm_backend/ripper_manager.py:331-403 | Every enrolled drive lands in exactly the bucket its container and calls call for and then has one container if it had none, never one more than it had and fewer only with a failure; the first container of every other label is removed or reported; no enrolled busy drive is stopped. |
| RipperManager.BucketExactly | services/backend/arm_backend/ripper_manager.py:331-403 | Exactly when a drive is created, recreated, adopted or restarted, from its container, its being busy and how the calls go; in every other case it failed. |
| RipperManager.Manager.StartOrCreate | services/backend/arm_backend/ripper_manager.py:222-262 | A container that exists, or that another caller made meanwhile, is never duplicated; without a failure the drive has one; it fails if and only if none could be created, none was running and none could be started; no other drive's containers change. |
| ImageCache.Cache.Store | services/backend/arm_backend/image_cache.py:54-87 | The index stays within its cap, the least recently accessed entries go first, and the stored image is what is remembered; a cap of zero raises; a write that raises leaves the index entry as it was over what the write left in the file. |
| ImageCache.Cache.Retrieve | services/backend/arm_backend/image_cache.py:90-109 | A hit has the type and time of the image last stored for the url, within its lifetime, and its bytes if and only if no later store that raised left others; a miss that finds an entry drops it. |
| ImageCache.TornHit | services/backend/arm_backend/image_cache.py:66-87 | Counterexample: a store whose description cannot be written makes the next hit pair its bytes with the old type. |
| ImageCache.Cache.Clear | services/backend/arm_backend/image_cache.py:127-133 | Every entry goes and is counted. |

## Left out

- Stale ORM rows in the GPU claim: the select is modelled as reading the committed rows; a cached row of the dispatcher's own session is not.
- Device-level exclusion: that a container whose claim commit failed may still use the device is outside the rows the proofs are about.
- Waiting applications that a post-rip apply without outputs parks again and again: only the pre-rip park is idempotent.
- The gates before a fan-out (missing session or preset, transcoding off, no device for the encoder) are one flag of a parked application; the automatic apply after a drain is not modelled.
- Python format specifications and doubled braces in templates; year, duration and index are natural numbers.
- PathTemplate.Expand: a token is a member of an enumeration or a named other, not text to be scanned out of braces.
- SegmentTidy.TidyKeepsSolid: the character classes of the patterns are the ASCII ones.
- Text of error messages, log lines and the events sent to clients.
- DrivePoll: the rip a reattached drive resumes runs inside its tick and is not one the loop counts as under way.
- Symbolic links and races with other writers in the disc-folder walk; what makes a folder a disc folder is given.
- FileMove.Disk.TranscodeNone: what survives a power cut, as opposed to a process that stops.
- HandBrake's output is taken as decoded text; a character split over two byte chunks is decoded as the decoder does.
- SpawnPass: other writers commit between two turns of a pass; inside a turn only the deletion of a task that is being moved is modelled.
- PassthroughProtocol: progress reports are no-ops on the state.
- RipperManager: one reconcile at a time; a container that another caller creates meanwhile appears only as a name conflict.
- ImageCache: two urls with one hash, files of an earlier process, and reads and deletions of files that raise.
- FileMove.Disk.MoveTree: a source that is no folder any more, a destination inside the source, and links in a folder.
- SpawnTicks: container names are taken to differ for different tasks; devices are the matter of the GPU modules.
- The review countdown, identification and ejecting in the ripper; HTTP, authentication, settings, log tailing and the user interface.
