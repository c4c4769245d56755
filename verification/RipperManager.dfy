/** `RipperManager.reconcile`: the ripper containers of the enrolled drives, brought in line with the drive table. */
module RipperManager {
  import opened Options

  type DriveId = nat

  datatype Container = Container(drive: DriveId, running: bool, drifted: bool)

  datatype Bucket = Created | Adopted | Restarted | Recreated | Failed

  /** How the docker calls for a drive go. `winner`: the container a name conflict turns up, if that is why
      the run failed: is it running? */
  datatype World = World(driftRaises: bool, stops: bool, runs: bool, starts: bool, winner: Option<bool>)

  datatype Summary = Summary(created: seq<DriveId>, adopted: seq<DriveId>, restarted: seq<DriveId>,
                             recreated: seq<DriveId>, orphans: seq<DriveId>, failed: set<DriveId>)

  /** `by_drive`: the first container that carries the label. */
  function FirstFor(cs: seq<Container>, d: DriveId): Option<Container> {
    if cs == [] then None else if cs[0].drive == d then Some(cs[0]) else FirstFor(cs[1..], d)
  }

  function Started(running: bool, w: World): Bucket {
    if running then Adopted else if w.starts then Restarted else Failed
  }

  /** Where a drive has to end up. */
  function Outcome(existing: Option<Container>, busy: bool, w: World): Bucket {
    match existing
    case None => if w.runs then Created else if w.winner.Some? then Started(w.winner.value, w) else Failed
    case Some(c) =>
      if w.driftRaises then Failed
      else if c.drifted && !busy then (if w.stops && w.runs then Recreated else Failed)
      else Started(c.running, w)
  }

  /** In which bucket a drive ends up: created, when it has no container and one can be run; recreated, when it has
      an outdated one, is idle, and that can be stopped and another run; adopted, when its container, or the one a
      concurrent caller just made, runs; restarted, when that does not run and can be started; failed otherwise. */
  lemma BucketExactly(existing: Option<Container>, busy: bool, w: World)
    ensures var b := Outcome(existing, busy, w);
      var kept := existing.Some? && !w.driftRaises && (busy || !existing.value.drifted);
      var met := existing.None? && !w.runs && w.winner.Some?;
      var running := (kept && existing.value.running) || (met && w.winner.value);
      && (b == Created <==> existing.None? && w.runs)
      && (b == Recreated <==> existing.Some? && !w.driftRaises && existing.value.drifted && !busy && w.stops && w.runs)
      && (b == Adopted <==> running)
      && (b == Restarted <==> (kept || met) && !running && w.starts)
  {
  }

  type Worlds = DriveId -> World

  function BucketOf(cs: seq<Container>, busy: set<DriveId>, worlds: Worlds, d: DriveId): Bucket {
    Outcome(FirstFor(cs, d), d in busy, worlds(d))
  }

  /** `d` is in `list` once if `here`, else not at all. */
  predicate Once(list: seq<DriveId>, d: DriveId, here: bool) {
    multiset(list)[d] == if here then 1 else 0
  }

  /** The summary says of `d` that it went to bucket `b` (None: nothing was said) and nothing else. */
  predicate Filed(s: Summary, d: DriveId, b: Option<Bucket>) {
    && Once(s.created, d, b == Some(Created)) && Once(s.adopted, d, b == Some(Adopted)) && Once(s.restarted, d, b == Some(Restarted))
    && Once(s.recreated, d, b == Some(Recreated)) && (d in s.failed <==> b == Some(Failed))
  }

  function File(s: Summary, d: DriveId, b: Bucket): Summary {
    match b
    case Created => s.(created := s.created + [d])
    case Adopted => s.(adopted := s.adopted + [d])
    case Restarted => s.(restarted := s.restarted + [d])
    case Recreated => s.(recreated := s.recreated + [d])
    case Failed => s.(failed := s.failed + {d})
  }

  /** What the summary has to say of `d` when the loop has been over `done`. */
  function Expected(done: seq<DriveId>, failed: set<DriveId>, cs: seq<Container>, busy: set<DriveId>, worlds: Worlds, d: DriveId): Option<Bucket> {
    if d in done then Some(BucketOf(cs, busy, worlds, d)) else if d in failed then Some(Failed) else None
  }

  lemma FileKeeps(s: Summary, d: DriveId, b: Bucket, e: DriveId, was: Option<Bucket>)
    requires Filed(s, e, was) && (e == d ==> was.None?)
    ensures Filed(File(s, d, b), e, if e == d then Some(b) else was)
  {
  }

  lemma FileNext(s: Summary, done: seq<DriveId>, failed: set<DriveId>, cs: seq<Container>, busy: set<DriveId>, worlds: Worlds, d: DriveId)
    requires forall e :: Filed(s, e, Expected(done, failed, cs, busy, worlds, e))
    requires d !in done && d !in failed
    ensures forall e :: Filed(File(s, d, BucketOf(cs, busy, worlds, d)), e, Expected(done + [d], failed, cs, busy, worlds, e))
  {
    forall e ensures Filed(File(s, d, BucketOf(cs, busy, worlds, d)), e, Expected(done + [d], failed, cs, busy, worlds, e)) {
      FileKeeps(s, d, BucketOf(cs, busy, worlds, d), e, Expected(done, failed, cs, busy, worlds, e));
    }
  }

  /** How many containers carry each drive's label. */
  function Labels(cs: seq<Container>): multiset<DriveId> {
    if cs == [] then multiset{} else Labels(cs[1..]) + multiset{cs[0].drive}
  }

  /** The container the calls can work with: the one that was listed, or the one a name conflict turns up. */
  function Found(existing: Option<Container>, w: World): Option<bool> {
    if existing.Some? then Some(existing.value.running) else if w.runs then None else w.winner
  }

  /** From `before` containers of an enrolled drive to `now`: one if there was none, never one more, one less
      only with a failure. */
  predicate Counted(now: nat, before: nat, b: Option<Bucket>) {
    if b.None? then now == before
    else if before == 0 then now <= 1 && (b != Some(Failed) ==> now == 1)
    else before - 1 <= now <= before && (b != Some(Failed) ==> now == before)
  }

  class Manager {
    var containers: multiset<DriveId>  // what the daemon has, by label
    var stopped: set<DriveId>          // drives whose container was stopped and removed

    constructor (cs: seq<Container>)
      ensures stopped == {} && containers == Labels(cs)
    {
      containers, stopped := Labels(cs), {};
    }

    /** `_start_or_create`: a container that exists, or that another caller just made, is never duplicated, and
        it fails exactly when none could be created, none was running and none could be started. */
    method StartOrCreate(d: DriveId, existing: Option<Container>, w: World) returns (b: Bucket)
      requires existing.Some? <==> d in containers
      modifies this`containers
      ensures Counted(containers[d], old(containers)[d], Some(b)) && containers >= old(containers)
      ensures forall e | e != d :: containers[e] == old(containers)[e]
      ensures b == Created ==> d !in old(containers)
      ensures b == Failed <==> !(existing.None? && w.runs) && (Found(existing, w).Some? ==> !Found(existing, w).value && !w.starts)
      ensures existing.Some? ==> b == Started(existing.value.running, w)
      ensures existing.None? ==> b == Outcome(None, false, w)
    {
      var running: bool;
      if existing.None? {
        if w.runs {
          containers := containers + multiset{d};
          return Created;
        }
        if w.winner.None? { return Failed; }
        containers := containers + multiset{d};  // the other caller's
        running := w.winner.value;
      } else {
        running := existing.value.running;
      }
      if running { return Adopted; }
      return if w.starts then Restarted else Failed;
    }

    /** One enrolled drive. A busy one keeps its container, drifted or not. */
    method ReconcileOne(d: DriveId, existing: Option<Container>, busy: bool, w: World) returns (b: Bucket)
      requires existing.Some? <==> d in containers
      modifies this
      ensures b == Outcome(existing, busy, w)
      ensures stopped == old(stopped) || stopped == old(stopped) + {d}
      ensures busy || existing.None? || !existing.value.drifted ==> stopped == old(stopped) && containers >= old(containers)
      ensures Counted(containers[d], old(containers)[d], Some(b)) && forall e | e != d :: containers[e] == old(containers)[e]
    {
      if existing.Some? {
        if w.driftRaises { return Failed; }
        if existing.value.drifted && !busy {
          if !w.stops { return Failed; }
          stopped := stopped + {d};
          containers := containers - multiset{d};
          if !w.runs { return Failed; }
          containers := containers + multiset{d};
          return Recreated;
        }
      }
      b := StartOrCreate(d, existing, w);
    }

    method RemoveOrphans(cs: seq<Container>, wanted: set<DriveId>, worlds: Worlds) returns (orphans: seq<DriveId>, failed: set<DriveId>)
      requires containers == Labels(cs)
      modifies this
      ensures stopped !! (wanted - old(stopped)) && old(stopped) <= stopped
      ensures forall d :: Swept(orphans, failed, containers, old(containers), d, d !in wanted && FirstFor(cs, d).Some?, worlds(d).stops)
    {
      orphans, failed := [], {};
      var gone: set<DriveId> := {};
      assert AllSwept(orphans, failed, containers, old(containers), gone, worlds);
      for i := 0 to |cs|
        invariant gone == OthersOf(cs[..i], wanted)
        invariant stopped !! (wanted - old(stopped)) && old(stopped) <= stopped
        invariant AllSwept(orphans, failed, containers, old(containers), gone, worlds)
      {
        var d := cs[i].drive;
        assert cs[..i + 1] == cs[..i] + [cs[i]];
        if d !in gone && d !in wanted {
          Listed(cs, d);
          orphans, failed := RemoveOne(d, worlds, orphans, failed, gone, old(containers));
          gone := gone + {d};
        }
      }
      assert cs[..|cs|] == cs;
      SweptAll(orphans, failed, containers, old(containers), gone, cs, wanted, worlds);
    }

    method RemoveOne(d: DriveId, worlds: Worlds, orphans: seq<DriveId>, failed: set<DriveId>, ghost gone: set<DriveId>, ghost before: multiset<DriveId>)
      returns (orphans': seq<DriveId>, failed': set<DriveId>)
      requires AllSwept(orphans, failed, containers, before, gone, worlds) && d !in gone && d in before
      modifies this
      ensures AllSwept(orphans', failed', containers, before, gone + {d}, worlds)
      ensures stopped == old(stopped) || stopped == old(stopped) + {d}
    {
      SweptOne(orphans, failed, containers, before, gone, d, worlds);
      if !worlds(d).stops { return orphans, failed + {d}; }
      stopped := stopped + {d};
      containers := containers - multiset{d};
      return orphans + [d], failed;
    }

    /** Every enrolled drive lands in exactly one bucket, the one its container and its calls call for, and has
        one container unless that failed, none more than it had; the first container of every other label is
        removed or reported; and no enrolled drive that is busy is stopped. */
    method Reconcile(enrolled: seq<DriveId>, cs: seq<Container>, busy: set<DriveId>, worlds: Worlds) returns (s: Summary)
      requires forall i, j | 0 <= i < j < |enrolled| :: enrolled[i] != enrolled[j]
      requires containers == Labels(cs)
      modifies this
      ensures forall d | d in enrolled :: Filed(s, d, Some(BucketOf(cs, busy, worlds, d)))
      ensures forall d | d in enrolled :: Counted(containers[d], old(containers)[d], Some(BucketOf(cs, busy, worlds, d)))
      ensures forall d | d !in enrolled && FirstFor(cs, d).Some? :: Filed(s, d, if worlds(d).stops then None else Some(Failed))
      ensures forall d | d !in enrolled :: containers[d] == Less(old(containers)[d], FirstFor(cs, d).Some? && worlds(d).stops)
      ensures forall d :: Once(s.orphans, d, d !in enrolled && FirstFor(cs, d).Some? && worlds(d).stops)
      ensures forall d | d in enrolled && d in busy && d !in old(stopped) :: d !in stopped
    {
      var wanted := set d | d in enrolled;
      ghost var before := containers;
      var orphans, failed := RemoveOrphans(cs, wanted, worlds);
      AfterSweep(orphans, failed, containers, before, wanted, cs, worlds);
      ghost var left := containers;
      s := ReconcileAll(enrolled, cs, busy, worlds, orphans, failed);
      forall d | d in enrolled
        ensures Filed(s, d, Some(BucketOf(cs, busy, worlds, d)))
        ensures Counted(containers[d], before[d], Some(BucketOf(cs, busy, worlds, d)))
      {
        assert Filed(s, d, Expected(enrolled, failed, cs, busy, worlds, d));
        assert d in wanted && left[d] == before[d];
      }
      forall d | d !in enrolled
        ensures FirstFor(cs, d).Some? ==> Filed(s, d, if worlds(d).stops then None else Some(Failed))
        ensures containers[d] == Less(before[d], FirstFor(cs, d).Some? && worlds(d).stops)
      {
        assert Filed(s, d, Expected(enrolled, failed, cs, busy, worlds, d));
        assert d !in wanted && containers[d] == left[d];
      }
    }

    /** The loop over the enrolled drives. */
    method ReconcileAll(enrolled: seq<DriveId>, cs: seq<Container>, busy: set<DriveId>, worlds: Worlds, orphans: seq<DriveId>, failed: set<DriveId>)
      returns (s: Summary)
      requires forall i, j | 0 <= i < j < |enrolled| :: enrolled[i] != enrolled[j]
      requires forall d | d in enrolled :: d !in failed && (d in containers <==> FirstFor(cs, d).Some?)
      modifies this
      ensures s.orphans == orphans && forall d :: Filed(s, d, Expected(enrolled, failed, cs, busy, worlds, d))
      ensures AllCounted(containers, old(containers), enrolled, cs, busy, worlds)
      ensures forall d | d in busy && d !in old(stopped) :: d !in stopped
    {
      s := Summary([], [], [], [], orphans, failed);
      for i := 0 to |enrolled|
        invariant s.orphans == orphans
        invariant forall d :: Filed(s, d, Expected(enrolled[..i], failed, cs, busy, worlds, d))
        invariant AllCounted(containers, old(containers), enrolled[..i], cs, busy, worlds)
        invariant forall d | d in busy && d !in old(stopped) :: d !in stopped
      {
        var d := enrolled[i];
        assert d !in enrolled[..i];
        ghost var was := containers;
        var b := ReconcileOne(d, FirstFor(cs, d), d in busy, worlds(d));
        FileNext(s, enrolled[..i], failed, cs, busy, worlds, d);
        CountNext(containers, was, old(containers), enrolled[..i], cs, busy, worlds, d);
        s := File(s, d, b);
        assert enrolled[..i + 1] == enrolled[..i] + [d];
      }
      assert enrolled[..|enrolled|] == enrolled;
    }
  }

  /** What the sweep of the other containers does for `d`; `gone`: it is one of them. */
  predicate Swept(orphans: seq<DriveId>, failed: set<DriveId>, now: multiset<DriveId>, before: multiset<DriveId>, d: DriveId, gone: bool, stops: bool) {
    && Once(orphans, d, gone && stops) && (d in failed <==> gone && !stops)
    && now[d] == Less(before[d], gone && stops)
  }

  /** The drives of the listed containers that are not wanted. */
  function OthersOf(cs: seq<Container>, wanted: set<DriveId>): set<DriveId> {
    set c | c in cs && c.drive !in wanted :: c.drive
  }

  ghost predicate AllSwept(orphans: seq<DriveId>, failed: set<DriveId>, now: multiset<DriveId>, before: multiset<DriveId>, gone: set<DriveId>, worlds: Worlds) {
    forall d :: Swept(orphans, failed, now, before, d, d in gone, worlds(d).stops)
  }

  lemma SweptOne(orphans: seq<DriveId>, failed: set<DriveId>, now: multiset<DriveId>, before: multiset<DriveId>, gone: set<DriveId>,
      d: DriveId, worlds: Worlds)
    requires AllSwept(orphans, failed, now, before, gone, worlds) && d !in gone && d in before
    ensures worlds(d).stops ==> AllSwept(orphans + [d], failed, now - multiset{d}, before, gone + {d}, worlds)
    ensures !worlds(d).stops ==> AllSwept(orphans, failed + {d}, now, before, gone + {d}, worlds)
  {
    forall e
      ensures worlds(d).stops ==> Swept(orphans + [d], failed, now - multiset{d}, before, e, e in gone + {d}, worlds(e).stops)
      ensures !worlds(d).stops ==> Swept(orphans, failed + {d}, now, before, e, e in gone + {d}, worlds(e).stops)
    {
      assert Swept(orphans, failed, now, before, e, e in gone, worlds(e).stops);
    }
  }

  lemma SweptAll(orphans: seq<DriveId>, failed: set<DriveId>, now: multiset<DriveId>, before: multiset<DriveId>, gone: set<DriveId>,
      cs: seq<Container>, wanted: set<DriveId>, worlds: Worlds)
    requires AllSwept(orphans, failed, now, before, gone, worlds)
    requires gone == OthersOf(cs, wanted)
    ensures forall d :: Swept(orphans, failed, now, before, d, d !in wanted && FirstFor(cs, d).Some?, worlds(d).stops)
  {
    forall d ensures d in gone <==> d !in wanted && FirstFor(cs, d).Some? {
      Listed(cs, d);
    }
  }

  lemma AfterSweep(orphans: seq<DriveId>, failed: set<DriveId>, now: multiset<DriveId>, before: multiset<DriveId>, wanted: set<DriveId>,
      cs: seq<Container>, worlds: Worlds)
    requires before == Labels(cs)
    requires forall d :: Swept(orphans, failed, now, before, d, d !in wanted && FirstFor(cs, d).Some?, worlds(d).stops)
    ensures forall d | d in wanted :: d !in failed && now[d] == before[d] && (d in now <==> FirstFor(cs, d).Some?)
  {
    forall d | d in wanted ensures d !in failed && now[d] == before[d] && (d in now <==> FirstFor(cs, d).Some?) {
      assert Swept(orphans, failed, now, before, d, d !in wanted && FirstFor(cs, d).Some?, worlds(d).stops);
      Listed(cs, d);
    }
  }

  ghost predicate AllCounted(now: multiset<DriveId>, before: multiset<DriveId>, done: seq<DriveId>, cs: seq<Container>, busy: set<DriveId>, worlds: Worlds) {
    forall d :: if d in done then Counted(now[d], before[d], Some(BucketOf(cs, busy, worlds, d))) else now[d] == before[d]
  }

  lemma CountNext(now: multiset<DriveId>, was: multiset<DriveId>, before: multiset<DriveId>, done: seq<DriveId>, cs: seq<Container>,
      busy: set<DriveId>, worlds: Worlds, d: DriveId)
    requires AllCounted(was, before, done, cs, busy, worlds) && d !in done
    requires Counted(now[d], was[d], Some(BucketOf(cs, busy, worlds, d))) && forall e | e != d :: now[e] == was[e]
    ensures AllCounted(now, before, done + [d], cs, busy, worlds)
  {
  }

  function Less(n: nat, gone: bool): nat {
    if gone && n > 0 then n - 1 else n
  }

  lemma {:induction false} Listed(cs: seq<Container>, d: DriveId)
    ensures FirstFor(cs, d).Some? <==> d in Labels(cs)
    ensures d in Labels(cs) <==> exists k | 0 <= k < |cs| :: cs[k].drive == d
  {
    if cs != [] {
      Listed(cs[1..], d);
      assert forall k | 0 < k < |cs| :: cs[k] == cs[1..][k - 1];
    }
  }
}
