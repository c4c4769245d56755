/** `_execute_rip`: a disc rip that survives its drive dropping off the bus.

    Ripping itself, the drive coming back and the file system under it are the environment: a pass is the
    list of callbacks it makes and the files it leaves, and it keeps its promise (`Honest`). */
module RipResume {
  import opened Options

  type TrackId = nat
  type Content = nat

  const MAX_DEVICE_RESUMES: nat := 3

  /** An .mkv file: directory 0 is the job's own raw folder, k > 0 its `resume-k`. */
  datatype File = File(dir: nat, name: string)
  type Files = map<File, Content>

  datatype Output = Output(file: File, content: Content)

  /** `gone`: the drive is found gone when the title's failure is looked at. */
  datatype Callback = TrackStart(track: TrackId) | TrackDone(track: TrackId, ok: bool, output: Option<Output>, gone: bool) | DriveLeft

  datatype Pass = Pass(calls: seq<Callback>, files: Files)

  datatype Update = InProgress(track: TrackId) | Done(track: TrackId, output: Option<Output>) | Failed(track: TrackId)

  function Reports(calls: seq<Callback>, t: TrackId): nat {
    if calls == [] then 0
    else
      var last := calls[|calls| - 1];
      Reports(calls[..|calls| - 1], t) + if last.TrackDone? && last.track == t then 1 else 0
  }

  /** A pass reports every track it does not skip exactly once and no other, touches only its own
      directory, and leaves what it reports as done. */
  predicate Honest(p: Pass, before: Files, tracks: set<TrackId>, skip: set<TrackId>, dir: nat) {
    && (forall c | c in p.calls && c.TrackDone? :: c.track in tracks - skip)
    && (forall t | t in tracks - skip :: Reports(p.calls, t) == 1)
    && (forall f | f in before && f.dir != dir :: f in p.files && p.files[f] == before[f])
    && (forall c | c in p.calls && c.TrackDone? && c.ok && c.output.Some? ::
          c.output.value.file.dir == dir && c.output.value.file in p.files && p.files[c.output.value.file] == c.output.value.content)
  }

  function Terminals(log: seq<Update>, t: TrackId): nat {
    if log == [] then 0
    else
      var last := log[|log| - 1];
      Terminals(log[..|log| - 1], t) + if !last.InProgress? && last.track == t then 1 else 0
  }

  function Starts(log: seq<Update>, t: TrackId): nat {
    if log == [] then 0
    else
      var last := log[|log| - 1];
      Starts(log[..|log| - 1], t) + if last.InProgress? && last.track == t then 1 else 0
  }

  lemma LogGrows(log: seq<Update>, u: Update, t: TrackId)
    ensures Terminals(log + [u], t) == Terminals(log, t) + if !u.InProgress? && u.track == t then 1 else 0
    ensures Starts(log + [u], t) == Starts(log, t) + if u.InProgress? && u.track == t then 1 else 0
  {
    assert (log + [u])[..|log|] == log;
  }

  /** The files of the titles that are done. */
  function Finished(log: seq<Update>): set<File> {
    Outputs(Ends(log))
  }

  type Rips = (nat, Files, set<TrackId>) -> Pass

  // ----- what a pass says of its titles, from its callbacks alone ----------------------------------------

  /** Among the first `n` callbacks the drive left, or a title failed and the drive was found gone. */
  predicate LostBy(calls: seq<Callback>, n: nat)
    requires n <= |calls|
  {
    exists j | 0 <= j < n :: calls[j].DriveLeft? || (calls[j].TrackDone? && !calls[j].ok && calls[j].gone)
  }

  /** Callback `i` is a title that failed because the drive went away under it. */
  predicate Leaves(calls: seq<Callback>, resumable: bool, i: nat)
    requires i < |calls|
  {
    calls[i].TrackDone? && !calls[i].ok && resumable && (calls[i].gone || LostBy(calls, i))
  }

  /** The titles a pass leaves unfinished. */
  function LeftBy(calls: seq<Callback>, resumable: bool): set<TrackId> {
    set i | 0 <= i < |calls| && Leaves(calls, resumable, i) :: calls[i].track
  }

  /** The terminal updates of the others: done as reported, or failed. */
  function Verdicts(calls: seq<Callback>, resumable: bool): set<Update> {
    set i | 0 <= i < |calls| && calls[i].TrackDone? && !Leaves(calls, resumable, i) ::
      if calls[i].ok then Done(calls[i].track, calls[i].output) else Failed(calls[i].track)
  }

  function StartedIn(calls: seq<Callback>): set<TrackId> {
    set c | c in calls && c.TrackStart? :: c.track
  }

  function Ends(log: seq<Update>): set<Update> {
    set u | u in log && !u.InProgress?
  }

  function AllFailed(ts: set<TrackId>): set<Update> {
    set t | t in ts :: Failed(t)
  }

  /** One pass: the files it found, the titles it skipped, and what it did. */
  datatype Turn = Turn(found: Files, skip: set<TrackId>, pass: Pass)

  function AllVerdicts(ran: seq<Turn>, resumable: bool): set<Update> {
    if ran == [] then {} else AllVerdicts(ran[..|ran| - 1], resumable) + Verdicts(ran[|ran| - 1].pass.calls, resumable)
  }

  function AllStarted(ran: seq<Turn>): set<TrackId> {
    if ran == [] then {} else AllStarted(ran[..|ran| - 1]) + StartedIn(ran[|ran| - 1].pass.calls)
  }

  /** The titles the last pass left unfinished. */
  function Left(ran: seq<Turn>, resumable: bool): set<TrackId> {
    if ran == [] then {} else LeftBy(ran[|ran| - 1].pass.calls, resumable)
  }

  /** The files of the titles that are done. */
  function Outputs(updates: set<Update>): set<File> {
    set u | u in updates && u.Done? && u.output.Some? :: u.output.value.file
  }

  function Only(files: Files, keep: set<File>): Files {
    map f | f in files && f in keep :: files[f]
  }

  /** What the pass after these starts with: the first everything to rip; a later one skips every title the one
      before did not leave unfinished, and finds exactly the files of the titles that were done. */
  predicate Entered(ids: set<TrackId>, resumable: bool, first: Files, ran: seq<Turn>, files: Files, skip: set<TrackId>) {
    if ran == [] then files == first && skip == {}
    else
      && skip == ids - Left(ran, resumable)
      && files == Only(ran[|ran| - 1].pass.files, Outputs(AllVerdicts(ran, resumable)))
  }

  /** Another pass follows: the last one left a title unfinished, a resume is left, and the drive came back. */
  predicate GoesOn(ran: seq<Turn>, resumable: bool, returns_: nat -> bool)
    requires ran != []
  {
    Left(ran, resumable) != {} && |ran| - 1 < MAX_DEVICE_RESUMES && returns_(|ran| - 1)
  }

  /** Every pass is what the environment does with what it started with, and followed as it should be. */
  predicate History(ids: set<TrackId>, resumable: bool, first: Files, rips: Rips, returns_: nat -> bool, ran: seq<Turn>) {
    ran == [] ||
      var before, last := ran[..|ran| - 1], ran[|ran| - 1];
      && History(ids, resumable, first, rips, returns_, before)
      && (before != [] ==> GoesOn(before, resumable, returns_))
      && Entered(ids, resumable, first, before, last.found, last.skip)
      && last.pass == rips(|before|, last.found, last.skip)
  }

  /** Title `t` failed in the pass because the drive had gone: it had left or failed another title before, or was
      found gone then. */
  predicate LostTitle(calls: seq<Callback>, t: TrackId) {
    exists i | 0 <= i < |calls| :: calls[i].TrackDone? && calls[i].track == t && !calls[i].ok && GoneAt(calls, i)
  }

  predicate GoneAt(calls: seq<Callback>, i: nat)
    requires i < |calls|
  {
    exists j | 0 <= j <= i :: (calls[j].DriveLeft? && j < i) || (calls[j].TrackDone? && !calls[j].ok && calls[j].gone)
  }

  /** A title of one of the first `k` passes was done and wrote the file. */
  predicate DoneInto(ran: seq<Turn>, k: nat, f: File)
    requires k <= |ran|
  {
    exists j | 0 <= j < k :: exists c | c in ran[j].pass.calls :: c.TrackDone? && c.ok && c.output.Some? && c.output.value.file == f
  }

  lemma LeftAreLost(calls: seq<Callback>, resumable: bool)
    ensures forall t :: t in LeftBy(calls, resumable) <==> resumable && LostTitle(calls, t)
  {
    forall i | 0 <= i < |calls| && calls[i].TrackDone? && !calls[i].ok
      ensures Leaves(calls, resumable, i) <==> resumable && GoneAt(calls, i)
    {
      if calls[i].gone { assert calls[i].TrackDone? && !calls[i].ok && calls[i].gone; }
    }
  }

  lemma {:induction false} DoneIntoOutputs(ran: seq<Turn>, resumable: bool, f: File)
    ensures f in Outputs(AllVerdicts(ran, resumable)) <==> DoneInto(ran, |ran|, f)
    decreases |ran|
  {
    if ran != [] {
      var front, last := ran[..|ran| - 1], ran[|ran| - 1];
      DoneIntoOutputs(front, resumable, f);
      assert DoneInto(ran, |ran| - 1, f) <==> DoneInto(front, |front|, f) by {
        assert forall j | 0 <= j < |front| :: ran[j] == front[j];
      }
      VerdictFiles(last.pass.calls, resumable, f);
    }
  }

  lemma VerdictFiles(calls: seq<Callback>, resumable: bool, f: File)
    ensures f in Outputs(Verdicts(calls, resumable)) <==>
      exists c | c in calls :: c.TrackDone? && c.ok && c.output.Some? && c.output.value.file == f
  {
    if c :| c in calls && c.TrackDone? && c.ok && c.output.Some? && c.output.value.file == f {
      var i :| 0 <= i < |calls| && calls[i] == c;
      assert Done(c.track, c.output) in Verdicts(calls, resumable);
    }
  }

  lemma {:induction false} HistoryPrefix(ids: set<TrackId>, resumable: bool, first: Files, rips: Rips, returns_: nat -> bool, ran: seq<Turn>, k: nat)
    requires History(ids, resumable, first, rips, returns_, ran) && k <= |ran|
    ensures History(ids, resumable, first, rips, returns_, ran[..k])
    ensures 0 < k < |ran| ==> GoesOn(ran[..k], resumable, returns_)
    decreases |ran|
  {
    if k < |ran| {
      HistoryPrefix(ids, resumable, first, rips, returns_, ran[..|ran| - 1], k);
      assert ran[..|ran| - 1][..k] == ran[..k];
    } else {
      assert ran[..k] == ran;
    }
  }

  /** A rip that is over: another pass follows pass `k` if and only if a title failed in it because the drive had
      gone, fewer than three passes came before it, and the drive came back. */
  lemma NextPassExactly(ids: set<TrackId>, resumable: bool, first: Files, rips: Rips, returns_: nat -> bool, ran: seq<Turn>, k: nat)
    requires k < |ran| && History(ids, resumable, first, rips, returns_, ran) && !GoesOn(ran, resumable, returns_)
    ensures k + 1 < |ran| <==> resumable && (exists t :: LostTitle(ran[k].pass.calls, t)) && k < 3 && returns_(k)
  {
    HistoryPrefix(ids, resumable, first, rips, returns_, ran, k + 1);
    LeftAreLost(ran[k].pass.calls, resumable);
    FollowedExactly(resumable, returns_, ran, k);
  }

  /** The first pass starts with everything; a later one skips exactly the titles the one before did not lose, and
      finds exactly the files that titles done so far have written. */
  lemma PassStartsWith(ids: set<TrackId>, resumable: bool, first: Files, rips: Rips, returns_: nat -> bool, ran: seq<Turn>, k: nat)
    requires k < |ran| && History(ids, resumable, first, rips, returns_, ran)
    ensures ran[k].pass == rips(k, ran[k].found, ran[k].skip)
    ensures k == 0 ==> ran[k].skip == {} && ran[k].found == first
    ensures k > 0 ==> forall t :: t in ran[k].skip <==> t in ids && !LostTitle(ran[k - 1].pass.calls, t)
    ensures k > 0 ==> forall f :: f in ran[k].found <==> f in ran[k - 1].pass.files && DoneInto(ran, k, f)
    ensures k > 0 ==> forall f :: f in ran[k].found ==> ran[k].found[f] == ran[k - 1].pass.files[f]
  {
    HistoryPrefix(ids, resumable, first, rips, returns_, ran, k + 1);
    HistoryPrefix(ids, resumable, first, rips, returns_, ran, k);
    var upTo := ran[..k + 1];
    assert upTo[..k] == ran[..k] && upTo[k] == ran[k];
    if k > 0 {
      var calls := ran[k - 1].pass.calls;
      LeftAreLost(calls, resumable);
      assert ran[..k][k - 1] == ran[k - 1];
      assert Left(ran[..k], resumable) == LeftBy(calls, resumable) != {};
      forall f ensures f in Outputs(AllVerdicts(ran[..k], resumable)) <==> DoneInto(ran, k, f) {
        DoneIntoFront(ran, k, resumable, f);
      }
    }
  }

  lemma DoneIntoFront(ran: seq<Turn>, k: nat, resumable: bool, f: File)
    requires k <= |ran|
    ensures f in Outputs(AllVerdicts(ran[..k], resumable)) <==> DoneInto(ran, k, f)
  {
    DoneIntoOutputs(ran[..k], resumable, f);
    assert forall j | 0 <= j < k :: ran[..k][j] == ran[j];
  }

  /** A pass reported the title as done, with this file. */
  predicate ReportedDone(ran: seq<Turn>, t: TrackId, output: Option<Output>) {
    exists k | 0 <= k < |ran| :: exists c | c in ran[k].pass.calls :: c.TrackDone? && c.ok && c.track == t && c.output == output
  }

  /** A pass reported the title as failed while the drive was there. */
  predicate FailedItself(ran: seq<Turn>, resumable: bool, t: TrackId) {
    exists k | 0 <= k < |ran| :: FailsIn(ran[k].pass.calls, resumable, t)
  }

  predicate FailsIn(calls: seq<Callback>, resumable: bool, t: TrackId) {
    exists i | 0 <= i < |calls| :: calls[i].TrackDone? && !calls[i].ok && calls[i].track == t && !(resumable && GoneAt(calls, i))
  }

  lemma VerdictsMean(calls: seq<Callback>, resumable: bool, t: TrackId, output: Option<Output>)
    ensures Done(t, output) in Verdicts(calls, resumable) <==>
      exists c | c in calls :: c.TrackDone? && c.ok && c.track == t && c.output == output
    ensures Failed(t) in Verdicts(calls, resumable) <==> FailsIn(calls, resumable, t)
  {
    forall i | 0 <= i < |calls| && calls[i].TrackDone? && !calls[i].ok
      ensures Leaves(calls, resumable, i) <==> resumable && GoneAt(calls, i)
    {
      if calls[i].gone { assert calls[i].TrackDone? && !calls[i].ok && calls[i].gone; }
    }
    if c :| c in calls && c.TrackDone? && c.ok && c.track == t && c.output == output {
      var i :| 0 <= i < |calls| && calls[i] == c;
      assert !Leaves(calls, resumable, i);
    }
  }

  lemma {:induction false} AllVerdictsMean(ran: seq<Turn>, resumable: bool, t: TrackId, output: Option<Output>)
    ensures Done(t, output) in AllVerdicts(ran, resumable) <==> ReportedDone(ran, t, output)
    ensures Failed(t) in AllVerdicts(ran, resumable) <==> FailedItself(ran, resumable, t)
    decreases |ran|
  {
    if ran != [] {
      var front := ran[..|ran| - 1];
      AllVerdictsMean(front, resumable, t, output);
      VerdictsMean(ran[|ran| - 1].pass.calls, resumable, t, output);
      assert forall j | 0 <= j < |front| :: front[j] == ran[j];
    }
  }

  /** What the backend is told in the end: done exactly what some pass reported done, and failed exactly what
      failed while the drive was there, or was lost by the last pass. */
  lemma ToldInTheEnd(log: seq<Update>, ran: seq<Turn>, resumable: bool, t: TrackId, output: Option<Output>)
    requires ran != [] && Ends(log) == AllVerdicts(ran, resumable) + AllFailed(Left(ran, resumable))
    ensures Done(t, output) in log <==> ReportedDone(ran, t, output)
    ensures Failed(t) in log <==> FailedItself(ran, resumable, t) || (resumable && LostTitle(ran[|ran| - 1].pass.calls, t))
  {
    AllVerdictsMean(ran, resumable, t, output);
    LeftAreLost(ran[|ran| - 1].pass.calls, resumable);
    assert Done(t, output) in log <==> Done(t, output) in Ends(log);
    assert Failed(t) in log <==> Failed(t) in Ends(log);
  }

  lemma FollowedExactly(resumable: bool, returns_: nat -> bool, ran: seq<Turn>, k: nat)
    requires k < |ran| && !GoesOn(ran, resumable, returns_) && (k + 1 < |ran| ==> GoesOn(ran[..k + 1], resumable, returns_))
    ensures k + 1 < |ran| <==> LeftBy(ran[k].pass.calls, resumable) != {} && k < MAX_DEVICE_RESUMES && returns_(k)
  {
    if k + 1 == |ran| { assert ran[..k + 1] == ran; }
  }

  lemma RanMore(ran: seq<Turn>, turn: Turn, resumable: bool)
    ensures (ran + [turn])[..|ran|] == ran && (ran + [turn])[|ran|] == turn
    ensures AllVerdicts(ran + [turn], resumable) == AllVerdicts(ran, resumable) + Verdicts(turn.pass.calls, resumable)
    ensures AllStarted(ran + [turn]) == AllStarted(ran) + StartedIn(turn.pass.calls)
    ensures Left(ran + [turn], resumable) == LeftBy(turn.pass.calls, resumable)
  {
    assert (ran + [turn])[..|ran|] == ran;
  }

  lemma CallsGrow(calls: seq<Callback>, resumable: bool, i: nat)
    requires i < |calls|
    ensures var front, more, c := calls[..i], calls[..i + 1], calls[i];
      && (LostBy(more, i + 1) <==> LostBy(front, i) || c.DriveLeft? || (c.TrackDone? && !c.ok && c.gone))
      && (var left := c.TrackDone? && !c.ok && resumable && (c.gone || LostBy(front, i));
          && LeftBy(more, resumable) == LeftBy(front, resumable) + (if left then {c.track} else {})
          && Verdicts(more, resumable) == Verdicts(front, resumable) +
               (if c.TrackDone? && !left then {if c.ok then Done(c.track, c.output) else Failed(c.track)} else {}))
      && StartedIn(more) == StartedIn(front) + (if c.TrackStart? then {c.track} else {})
  {
    var front, more, c := calls[..i], calls[..i + 1], calls[i];
    assert more == front + [c];
    forall n | 0 <= n <= i ensures LostBy(more, n) == LostBy(front, n) {
      assert forall j | 0 <= j < n :: more[j] == front[j];
    }
    assert forall n | 0 <= n < i :: Leaves(more, resumable, n) == Leaves(front, resumable, n);
    assert LostBy(more, i + 1) <==> LostBy(more, i) || c.DriveLeft? || (c.TrackDone? && !c.ok && c.gone);
  }

  /** What a track's terminal state and its files have to be in the end. */
  predicate Safe(log: seq<Update>, files: Files) {
    forall u | u in log && u.Done? && u.output.Some? ::
      u.output.value.file in files && files[u.output.value.file] == u.output.value.content
  }

  class RipJob {
    const tracks: seq<TrackId>
    const queued: set<TrackId>
    const resumable: bool
    var lost: bool
    var unfinished: set<TrackId>
    var kept: set<File>
    var started: set<TrackId>
    var files: Files
    var log: seq<Update>

    constructor (tracks: seq<TrackId>, queued: set<TrackId>, resumable: bool, files: Files)
      requires forall i, j | 0 <= i < j < |tracks| :: tracks[i] != tracks[j]
      ensures this.tracks == tracks && this.queued == queued && this.resumable == resumable
      ensures !lost && unfinished == {} && kept == {} && started == {} && this.files == files && log == []
    {
      this.tracks, this.queued, this.resumable := tracks, queued, resumable;
      lost, unfinished, kept, started, this.files, log := false, {}, {}, {}, files, [];
    }

    function Ids(): set<TrackId> {
      set t | t in tracks
    }

    /** IN_PROGRESS went out once for the started tracks and never for the others. */
    ghost predicate StartsOnce()
      reads this`log, this`started
    {
      forall t :: Starts(log, t) == if t in started then 1 else 0
    }

    /** Exactly the files of titles reported done are kept. */
    ghost predicate KeptInLog()
      reads this`log, this`kept
    {
      kept == Finished(log)
    }

    method Patch(u: Update)
      modifies this`log
      ensures log == old(log) + [u] && Ends(log) == Ends(old(log)) + (if u.InProgress? then {} else {u})
      ensures forall t :: Terminals(log, t) == Terminals(old(log), t) + if !u.InProgress? && u.track == t then 1 else 0
      ensures forall t :: Starts(log, t) == Starts(old(log), t) + if u.InProgress? && u.track == t then 1 else 0
    {
      log := log + [u];
      forall t ensures Terminals(log, t) == Terminals(old(log), t) + (if !u.InProgress? && u.track == t then 1 else 0)
                    && Starts(log, t) == Starts(old(log), t) + (if u.InProgress? && u.track == t then 1 else 0)
      {
        LogGrows(old(log), u, t);
      }
    }

    method OnTrackStart(t: TrackId)
      requires StartsOnce() && KeptInLog()
      modifies this`log, this`started
      ensures StartsOnce() && KeptInLog()
      ensures forall u :: Terminals(log, u) == Terminals(old(log), u)
      ensures Ends(log) == Ends(old(log)) && started == old(started) + (if t in queued then {t} else {})
    {
      if t !in queued || t in started { return; }
      started := started + {t};
      Patch(InProgress(t));
    }

    method OnTrackDone(t: TrackId, ok: bool, output: Option<Output>, gone: bool)
      requires StartsOnce() && KeptInLog()
      modifies this`log, this`kept, this`lost, this`unfinished
      ensures StartsOnce() && KeptInLog() && old(kept) <= kept && (old(lost) ==> lost)
      ensures resumable || lost == old(lost)
      ensures var left := !ok && resumable && (old(lost) || gone);
        && (left ==> lost && unfinished == old(unfinished) + {t} && log == old(log) && kept == old(kept))
        && (!left ==> unfinished == old(unfinished) && lost == old(lost) && log == old(log) + [if ok then Done(t, output) else Failed(t)])
        && (forall u :: Terminals(log, u) == Terminals(old(log), u) + if !left && u == t then 1 else 0)
    {
      if ok {
        if output.Some? { kept := kept + {output.value.file}; }
        Patch(Done(t, output));
      } else if resumable && (lost || gone) {
        lost := true;
        unfinished := unfinished + {t};
      } else {
        Patch(Failed(t));
      }
    }

    /** `_remove_partial_outputs`. */
    method RemovePartialOutputs()
      modifies this`files
      ensures files == map f | f in old(files) && f in kept :: old(files)[f]
    {
      files := map f | f in files && f in kept :: files[f];
    }

    /** `_fail_unfinished`. */
    method FailUnfinished()
      requires StartsOnce() && KeptInLog() && unfinished <= Ids()
      requires forall i, j | 0 <= i < j < |tracks| :: tracks[i] != tracks[j]
      modifies this`log, this`started
      ensures StartsOnce() && KeptInLog()
      ensures forall t :: Terminals(log, t) == Terminals(old(log), t) + if t in unfinished then 1 else 0
      ensures Ends(log) == Ends(old(log)) + AllFailed(unfinished) && started == old(started) + unfinished
      ensures forall u | u in log && u.Done? :: u in old(log)
    {
      ghost var before, started0 := log, started;
      ghost var failed: set<TrackId> := {};
      for i := 0 to |tracks|
        invariant StartsOnce() && KeptInLog()
        invariant failed <= unfinished && forall t | t in unfinished :: t in failed <==> t in tracks[..i]
        invariant forall t :: Terminals(log, t) == Terminals(before, t) + if t in failed then 1 else 0
        invariant Ends(log) == Ends(before) + AllFailed(failed) && started == started0 + failed
        invariant forall u | u in log && u.Done? :: u in before
      {
        var t := tracks[i];
        assert tracks[..i + 1] == tracks[..i] + [t] && t !in tracks[..i];
        if t in unfinished {
          FailOne(t);
          failed := failed + {t};
        }
      }
      assert tracks[..|tracks|] == tracks && failed == unfinished;
    }

    method FailOne(t: TrackId)
      requires StartsOnce() && KeptInLog()
      modifies this`log, this`started
      ensures StartsOnce() && KeptInLog()
      ensures forall u :: Terminals(log, u) == Terminals(old(log), u) + if u == t then 1 else 0
      ensures Ends(log) == Ends(old(log)) + {Failed(t)} && started == old(started) + {t}
      ensures forall u | u in log && u.Done? :: u in old(log)
    {
      if t !in started {
        started := started + {t};
        Patch(InProgress(t));
      }
      Patch(Failed(t));
    }

    // ----- the passes ------------------------------------------------------------------------

    /** The skipped tracks are settled, the others are not. */
    ghost predicate Settled(skip: set<TrackId>)
      reads this`log
    {
      forall t :: Terminals(log, t) == if t in skip then 1 else 0
    }

    /** The files of finished titles are there, in the directories of passes before `k`. */
    ghost predicate FilesBefore(k: nat)
      reads this`log, this`files
    {
      Safe(log, files) && forall u | u in log && u.Done? && u.output.Some? :: u.output.value.file.dir < k
    }

    /** The state a pass starts in; a resume finds no .mkv that a finished title does not own. */
    ghost predicate Ready(skip: set<TrackId>, k: nat)
      reads this
    {
      skip <= Ids() && Settled(skip) && unfinished == {} && StartsOnce() && KeptInLog() && FilesBefore(k)
      && (k > 0 ==> files.Keys <= Finished(log))
    }

    /** How often `t` has been settled or left for a resume. */
    ghost function Accounted(t: TrackId): nat
      reads this`log, this`unfinished
    {
      Terminals(log, t) + if t in unfinished then 1 else 0
    }

    method Handle(c: Callback)
      requires StartsOnce() && KeptInLog() && (c.TrackDone? ==> c.track !in unfinished)
      requires unfinished != {} ==> lost
      modifies this`log, this`kept, this`lost, this`unfinished, this`started
      ensures StartsOnce() && KeptInLog() && (unfinished != {} ==> lost)
      ensures forall t :: Accounted(t) == old(Accounted(t)) + if c.TrackDone? && c.track == t then 1 else 0
      ensures var left := c.TrackDone? && !c.ok && resumable && (c.gone || old(lost));
        && unfinished == old(unfinished) + (if left then {c.track} else {})
        && Ends(log) == Ends(old(log)) +
             (if c.TrackDone? && !left then {if c.ok then Done(c.track, c.output) else Failed(c.track)} else {})
      ensures lost == (old(lost) || (resumable && (c.DriveLeft? || (c.TrackDone? && !c.ok && c.gone))))
      ensures started == old(started) + (if c.TrackStart? && c.track in queued then {c.track} else {})
    {
      if c.TrackDone? {
        OnTrackDone(c.track, c.ok, c.output, c.gone);
      } else if c.TrackStart? {
        OnTrackStart(c.track);
      } else if resumable {
        lost := true;
      }
    }

    /** One `rip_all` call and its callbacks. */
    method RunPass(p: Pass, skip: set<TrackId>, k: nat)
      requires Ready(skip, k) && !lost && Honest(p, files, Ids(), skip, k)
      modifies this
      ensures StartsOnce() && KeptInLog() && unfinished <= Ids() - skip
      ensures files == p.files && FilesBefore(k + 1)
      ensures Settled(Ids() - unfinished)
      ensures unfinished != {} ==> lost
      ensures unfinished == LeftBy(p.calls, resumable) && Ends(log) == Ends(old(log)) + Verdicts(p.calls, resumable)
      ensures started == old(started) + queued * StartedIn(p.calls)
    {
      ghost var before, started0 := log, started;
      for i := 0 to |p.calls|
        invariant Heard(p.calls[..i], before, started0) && files == old(files)
        invariant unfinished != {} ==> lost
        invariant forall t :: Accounted(t) == Reports(p.calls[..i], t) + if t in skip then 1 else 0
      {
        ReportsGrow(p.calls, i);
        if p.calls[i].TrackDone? {
          ReportedOnceAtMost(p, i, Ids() - skip, p.calls[i].track);
          assert Accounted(p.calls[i].track) == 0;
        }
        HandleNext(p.calls, i, before, started0);
      }
      assert p.calls[..|p.calls|] == p.calls;
      DoneInCalls(before, log, p.calls);
      LeftAreDue(p, files, Ids(), skip, k, resumable);
      SettledAfter(p, skip, files, k);
      FilesAfter(before, log, p, Ids(), skip, files, k);
      files := p.files;
    }

    /** The state after the callbacks `calls` of a pass. */
    ghost predicate Heard(calls: seq<Callback>, before: seq<Update>, started0: set<TrackId>)
      reads this
    {
      && StartsOnce() && KeptInLog() && (lost <==> resumable && LostBy(calls, |calls|))
      && unfinished == LeftBy(calls, resumable) && Ends(log) == Ends(before) + Verdicts(calls, resumable)
      && started == started0 + queued * StartedIn(calls)
    }

    method HandleNext(calls: seq<Callback>, i: nat, ghost before: seq<Update>, ghost started0: set<TrackId>)
      requires i < |calls| && Heard(calls[..i], before, started0) && (unfinished != {} ==> lost)
      requires calls[i].TrackDone? ==> calls[i].track !in unfinished
      modifies this`log, this`kept, this`lost, this`unfinished, this`started
      ensures Heard(calls[..i + 1], before, started0) && (unfinished != {} ==> lost)
      ensures forall t :: Accounted(t) == old(Accounted(t)) + if calls[i].TrackDone? && calls[i].track == t then 1 else 0
    {
      CallsGrow(calls, resumable, i);
      Handle(calls[i]);
    }

    lemma LeftAreDue(p: Pass, files: Files, ids: set<TrackId>, skip: set<TrackId>, k: nat, resumable: bool)
      requires Honest(p, files, ids, skip, k)
      ensures LeftBy(p.calls, resumable) <= ids - skip
    {
    }

    lemma FilesAfter(before: seq<Update>, log: seq<Update>, p: Pass, ids: set<TrackId>, skip: set<TrackId>, files: Files, k: nat)
      requires Safe(before, files) && Honest(p, files, ids, skip, k)
      requires forall u | u in before && u.Done? && u.output.Some? :: u.output.value.file.dir < k
      requires forall u | u in log && u.Done? :: u in before || TrackDoneIn(p.calls, u)
      ensures Safe(log, p.files)
      ensures forall u | u in log && u.Done? && u.output.Some? :: u.output.value.file.dir < k + 1
    {
    }

    lemma DoneInCalls(before: seq<Update>, log: seq<Update>, calls: seq<Callback>)
      requires Ends(log) == Ends(before) + Verdicts(calls, resumable)
      ensures forall u | u in log && u.Done? :: u in before || TrackDoneIn(calls, u)
    {
      forall u | u in log && u.Done? ensures u in before || TrackDoneIn(calls, u) {
        assert u in Ends(log);
      }
    }

    ghost predicate TrackDoneIn(calls: seq<Callback>, u: Update)
      requires u.Done?
    {
      exists c | c in calls :: c.TrackDone? && c.ok && c.track == u.track && c.output == u.output
    }

    lemma SettledAfter(p: Pass, skip: set<TrackId>, before: Files, k: nat)
      requires Honest(p, before, Ids(), skip, k) && skip <= Ids() && unfinished <= Ids() - skip
      requires forall t :: Accounted(t) == Reports(p.calls, t) + if t in skip then 1 else 0
      ensures Settled(Ids() - unfinished)
    {
      forall t ensures Terminals(log, t) == if t in Ids() - unfinished then 1 else 0 {
        if t !in Ids() - skip { NotReported(p.calls, t); }
        assert Accounted(t) == Reports(p.calls, t) + if t in skip then 1 else 0;
      }
    }

    /** The passes so far are their environment's, and the log has exactly what they said. */
    ghost predicate Told(first: Files, rips: Rips, returns_: nat -> bool, ran: seq<Turn>)
      reads this
    {
      && History(Ids(), resumable, first, rips, returns_, ran)
      && Ends(log) == AllVerdicts(ran, resumable) && started == queued * AllStarted(ran)
    }

    /** A pass and the record of it. */
    method TakeTurn(rips: Rips, ghost returns_: nat -> bool, ghost first: Files, skip: set<TrackId>, k: nat, ghost ran: seq<Turn>)
      returns (ghost more: seq<Turn>)
      requires Ready(skip, k) && !lost && k == |ran| && Honest(rips(k, files, skip), files, Ids(), skip, k)
      requires Told(first, rips, returns_, ran) && Entered(Ids(), resumable, first, ran, files, skip)
      requires ran != [] ==> GoesOn(ran, resumable, returns_)
      modifies this
      ensures StartsOnce() && KeptInLog() && unfinished <= Ids() - skip && FilesBefore(k + 1) && Settled(Ids() - unfinished)
      ensures |more| == k + 1 && Told(first, rips, returns_, more) && files == more[k].pass.files
      ensures unfinished == Left(more, resumable) && (unfinished != {} ==> lost)
    {
      more := ran + [Turn(files, skip, rips(k, files, skip))];
      RanMore(ran, more[k], resumable);
      RunPass(rips(k, files, skip), skip, k);
    }

    /** The drive is back: only the files of finished titles stay, and only the unfinished titles are ripped. */
    method Resume(k: nat, ghost first: Files, ghost rips: Rips, ghost returns_: nat -> bool, ghost ran: seq<Turn>) returns (skip: set<TrackId>)
      requires ran != [] && StartsOnce() && KeptInLog() && unfinished <= Ids() && FilesBefore(k) && Settled(Ids() - unfinished)
      requires Told(first, rips, returns_, ran) && files == ran[|ran| - 1].pass.files && unfinished == Left(ran, resumable)
      requires k > 0
      modifies this
      ensures Ready(skip, k) && !lost && Told(first, rips, returns_, ran) && Entered(Ids(), resumable, first, ran, files, skip)
    {
      RemovePartialOutputs();
      skip := Ids() - unfinished;
      unfinished := {};
      lost := false;
    }

    /** The whole rip: a pass is followed by another if and only if it left a title unfinished, a resume was left
        and the drive came back; the next one skips exactly the titles that are settled and finds exactly the
        files of the titles that are done. Every track has exactly one terminal update and at most one
        IN_PROGRESS: done or failed as its callback said, and failed for the drive exactly when the last pass
        left it. Every file reported as done is there unchanged. */
    method ExecuteRip(rips: Rips, returns_: nat -> bool) returns (passes: nat, ghost ran: seq<Turn>)
      requires forall i, j | 0 <= i < j < |tracks| :: tracks[i] != tracks[j]
      requires !lost && unfinished == {} && kept == {} && started == {} && log == []
      requires forall k: nat, f: Files, s: set<TrackId> :: Honest(rips(k, f, s), f, Ids(), s, k)
      modifies this
      ensures 1 <= passes == |ran| <= MAX_DEVICE_RESUMES + 1
      ensures Over(old(files), rips, returns_, ran) && !GoesOn(ran, resumable, returns_)
    {
      var skip: set<TrackId> := {};
      var resumes := 0;
      ran := [];
      ghost var first := files;
      assert Told(first, rips, returns_, ran);
      while true
        invariant Ready(skip, resumes) && !lost && |ran| == resumes <= MAX_DEVICE_RESUMES
        invariant Told(first, rips, returns_, ran) && Entered(Ids(), resumable, first, ran, files, skip)
        invariant ran != [] ==> GoesOn(ran, resumable, returns_)
        decreases MAX_DEVICE_RESUMES - resumes
      {
        ran := TakeTurn(rips, returns_, first, skip, resumes, ran);
        if !(lost && unfinished != {}) {
          NothingLeft(first, rips, returns_, ran);
          return resumes + 1, ran;
        }
        var returned := resumes < MAX_DEVICE_RESUMES && returns_(resumes);
        if !returned {
          GiveUp(first, rips, returns_, ran);
          return resumes + 1, ran;
        }
        resumes := resumes + 1;
        skip := Resume(resumes, first, rips, returns_, ran);
      }
    }

    /** The rip is over: every title is settled, and the log has what the passes said and what the drive left. */
    ghost predicate Over(first: Files, rips: Rips, returns_: nat -> bool, ran: seq<Turn>)
      reads this
    {
      && ran != [] && History(Ids(), resumable, first, rips, returns_, ran)
      && Ends(log) == AllVerdicts(ran, resumable) + AllFailed(Left(ran, resumable))
      && (forall t :: Terminals(log, t) == if t in Ids() then 1 else 0)
      && (forall t :: Starts(log, t) == if t in queued * AllStarted(ran) + Left(ran, resumable) then 1 else 0)
      && Safe(log, files) && files == ran[|ran| - 1].pass.files
    }

    lemma NothingLeft(first: Files, rips: Rips, returns_: nat -> bool, ran: seq<Turn>)
      requires ran != [] && StartsOnce() && Settled(Ids()) && Told(first, rips, returns_, ran) && Left(ran, resumable) == {}
      requires Safe(log, files) && files == ran[|ran| - 1].pass.files
      ensures Over(first, rips, returns_, ran)
    {
    }

    method GiveUp(ghost first: Files, ghost rips: Rips, ghost returns_: nat -> bool, ghost ran: seq<Turn>)
      requires forall i, j | 0 <= i < j < |tracks| :: tracks[i] != tracks[j]
      requires ran != [] && StartsOnce() && KeptInLog() && unfinished <= Ids() && Settled(Ids() - unfinished)
      requires Told(first, rips, returns_, ran) && unfinished == Left(ran, resumable)
      requires Safe(log, files) && files == ran[|ran| - 1].pass.files
      modifies this`log, this`started
      ensures Over(first, rips, returns_, ran)
    {
      FailUnfinished();
    }
  }

  lemma {:induction false} NotReported(calls: seq<Callback>, t: TrackId)
    requires forall c | c in calls && c.TrackDone? :: c.track != t
    ensures Reports(calls, t) == 0
  {
    if calls != [] {
      assert calls[|calls| - 1] in calls;
      NotReported(calls[..|calls| - 1], t);
    }
  }

  lemma {:induction false} ReportsPrefix(calls: seq<Callback>, i: nat, t: TrackId)
    requires i <= |calls|
    ensures Reports(calls[..i], t) <= Reports(calls, t)
    decreases |calls|
  {
    if i < |calls| {
      assert calls[..|calls| - 1][..i] == calls[..i];
      ReportsPrefix(calls[..|calls| - 1], i, t);
    } else {
      assert calls[..i] == calls;
    }
  }

  lemma ReportsGrow(calls: seq<Callback>, i: nat)
    requires i < |calls|
    ensures calls[i] in calls
    ensures forall t :: Reports(calls[..i + 1], t) == Reports(calls[..i], t) + if calls[i].TrackDone? && calls[i].track == t then 1 else 0
  {
    assert calls[..i + 1][..i] == calls[..i] && calls[..i + 1][i] == calls[i];
  }

  /** A track has not been reported before its one report. */
  lemma ReportedOnceAtMost(p: Pass, i: nat, due: set<TrackId>, t: TrackId)
    requires i < |p.calls| && p.calls[i].TrackDone? && p.calls[i].track == t && t in due
    requires forall u | u in due :: Reports(p.calls, u) == 1
    ensures Reports(p.calls[..i], t) == 0
  {
    ReportsPrefix(p.calls, i + 1, t);
    assert p.calls[..i + 1][..i] == p.calls[..i];
  }
}
