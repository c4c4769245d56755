/** The insertion detector and the poll loop that feeds it. */
module DrivePoll {
  import opened Options

  datatype DriveState = DiscOk | NoDisc | TrayOpen | NotReady | NoInfo | Absent

  /** What the detector is given: a reading, or a reset. */
  datatype Feed = Read(state: DriveState) | Reset

  datatype Detector = Detector(handled: bool, streak: nat)

  function Updated(d: Detector, threshold: int, s: DriveState): (Detector, bool) {
    var streak := if s == NotReady then d.streak + 1 else 0;
    var handled := if s in {NoDisc, TrayOpen} || (s == NotReady && streak >= threshold) then false else d.handled;
    if s == DiscOk && !handled then (Detector(true, streak), true) else (Detector(handled, streak), false)
  }

  function After(feeds: seq<Feed>, threshold: int): Detector {
    if feeds == [] then Detector(false, 0)
    else
      match feeds[|feeds| - 1]
      case Reset => Detector(false, 0)
      case Read(s) => Updated(After(feeds[..|feeds| - 1], threshold), threshold, s).0
  }

  class InsertDetector {
    var handled: bool
    var streak: nat
    const threshold: int

    constructor (threshold: int)
      ensures this.threshold == threshold && Now() == Detector(false, 0)
    {
      handled, streak := false, 0;
      this.threshold := threshold;
    }

    function Now(): Detector
      reads this
    {
      Detector(handled, streak)
    }

    method Forget()
      modifies this
      ensures Now() == Detector(false, 0)
    {
      handled, streak := false, 0;
    }

    method Update(s: DriveState) returns (fired: bool)
      modifies this
      ensures (Now(), fired) == Updated(old(Now()), threshold, s)
    {
      if s in {NoDisc, TrayOpen} { handled := false; }
      if s == NotReady {
        streak := streak + 1;
        if streak >= threshold { handled := false; }
      } else {
        streak := 0;
      }
      if s == DiscOk && !handled {
        handled := true;
        return true;
      }
      return false;
    }
  }

  // ----- when it fires, from the readings alone --------------------------------------------------

  /** The length of the NOT_READY run the feeds end in. */
  function Run(feeds: seq<Feed>): nat {
    if feeds == [] || feeds[|feeds| - 1] != Read(NotReady) then 0 else Run(feeds[..|feeds| - 1]) + 1
  }

  /** At feed `k` the disc has demonstrably left: a reset, no media, or NOT_READY for long enough. */
  predicate Rearms(feeds: seq<Feed>, threshold: int, k: nat)
    requires k < |feeds|
  {
    match feeds[k]
    case Reset => true
    case Read(s) => s in {NoDisc, TrayOpen} || (s == NotReady && Run(feeds[..k + 1]) >= threshold)
  }

  predicate RearmedAfter(feeds: seq<Feed>, threshold: int, j: nat) {
    exists k | j < k < |feeds| :: Rearms(feeds, threshold, k)
  }

  /** The last feed is a DISC_OK reading, and since every earlier fire the disc has left. */
  predicate Fires(feeds: seq<Feed>, threshold: int)
    decreases |feeds|
  {
    && feeds != [] && feeds[|feeds| - 1] == Read(DiscOk)
    && forall j | 0 <= j < |feeds| - 1 && Fires(feeds[..j + 1], threshold) :: RearmedAfter(feeds, threshold, j)
  }

  predicate Latched(feeds: seq<Feed>, threshold: int) {
    exists j | 0 <= j < |feeds| :: Fires(feeds[..j + 1], threshold) && !RearmedAfter(feeds, threshold, j)
  }

  lemma RearmsPrefix(feeds: seq<Feed>, f: Feed, threshold: int, k: nat)
    requires k < |feeds|
    ensures Rearms(feeds + [f], threshold, k) == Rearms(feeds, threshold, k)
  {
    assert (feeds + [f])[..k + 1] == feeds[..k + 1];
  }

  lemma RearmedMore(feeds: seq<Feed>, f: Feed, threshold: int, j: nat)
    requires j < |feeds|
    ensures RearmedAfter(feeds + [f], threshold, j) <==> RearmedAfter(feeds, threshold, j) || Rearms(feeds + [f], threshold, |feeds|)
  {
    forall k | 0 <= k < |feeds| ensures Rearms(feeds + [f], threshold, k) == Rearms(feeds, threshold, k) {
      RearmsPrefix(feeds, f, threshold, k);
    }
    if RearmedAfter(feeds, threshold, j) {
      var k :| j < k < |feeds| && Rearms(feeds, threshold, k);
      assert Rearms(feeds + [f], threshold, k);
    }
  }

  lemma LatchedMore(feeds: seq<Feed>, f: Feed, threshold: int)
    ensures Fires(feeds + [f], threshold) <==> f == Read(DiscOk) && !Latched(feeds, threshold)
    ensures Latched(feeds + [f], threshold) <==>
      (Latched(feeds, threshold) && !Rearms(feeds + [f], threshold, |feeds|)) || Fires(feeds + [f], threshold)
  {
    var more := feeds + [f];
    forall j | 0 <= j < |feeds|
      ensures more[..j + 1] == feeds[..j + 1]
      ensures RearmedAfter(more, threshold, j) <==> RearmedAfter(feeds, threshold, j) || Rearms(more, threshold, |feeds|)
    {
      RearmedMore(feeds, f, threshold, j);
    }
    assert more[..|feeds| + 1] == more;
    assert !RearmedAfter(more, threshold, |feeds|);
  }

  lemma {:induction false} AfterMeans(feeds: seq<Feed>, threshold: int)
    ensures After(feeds, threshold) == Detector(Latched(feeds, threshold), Run(feeds))
  {
    if feeds != [] {
      var n := |feeds| - 1;
      assert feeds == feeds[..n] + [feeds[n]];
      AfterMeans(feeds[..n], threshold);
      LatchedMore(feeds[..n], feeds[n], threshold);
      assert feeds[..n + 1] == feeds;
    }
  }

  /** For every stream the detector fires at a reading exactly when it is DISC_OK and, since each earlier
      fire, there was a reset, a no-media reading, or a NOT_READY run of at least the threshold. */
  lemma FiresExactly(feeds: seq<Feed>, threshold: int, s: DriveState)
    ensures Updated(After(feeds, threshold), threshold, s).1 <==> Fires(feeds + [Read(s)], threshold)
  {
    AfterMeans(feeds, threshold);
    LatchedMore(feeds, Read(s), threshold);
  }

  // ----- the poll loop -----------------------------------------------------------------------------

  datatype Poll = Poll(detector: Detector, last: Option<DriveState>, active: bool)

  /** One tick: a reattached drive resets the detector before the reading is fed, a fire starts a rip unless
      one is under way. */
  function Ticked(p: Poll, threshold: int, s: DriveState, ripDone: bool, node: bool): (Poll, bool) {
    var detector := if p.last == Some(Absent) && s != Absent then Detector(false, 0) else p.detector;
    var active := p.active && !ripDone;
    var (next, fired) := Updated(detector, threshold, s);
    var started := fired && !active && node;
    (Poll(next, Some(s), active || started), started)
  }

  class PollLoop {
    const detector: InsertDetector
    var last: Option<DriveState>
    var active: bool

    constructor (threshold: int)
      ensures fresh(detector) && detector.threshold == threshold && Now() == Poll(Detector(false, 0), None, false)
    {
      detector := new InsertDetector(threshold);
      last, active := None, false;
    }

    function Now(): Poll
      reads this, detector
    {
      Poll(detector.Now(), last, active)
    }

    method Tick(s: DriveState, ripDone: bool, node: bool) returns (started: bool)
      modifies this, detector
      ensures (Now(), started) == Ticked(old(Now()), detector.threshold, s, ripDone, node)
    {
      if last == Some(Absent) && s != Absent { detector.Forget(); }
      if last != Some(s) { last := Some(s); }
      if active && ripDone { active := false; }
      var fired := detector.Update(s);
      started := fired && !active && node;
      if started { active := true; }
    }
  }

  datatype Reading = Reading(state: DriveState, ripDone: bool, node: bool)

  function Polled(p: Poll, threshold: int, rs: seq<Reading>): Poll {
    if rs == [] then p
    else var r := rs[|rs| - 1]; Ticked(Polled(p, threshold, rs[..|rs| - 1]), threshold, r.state, r.ripDone, r.node).0
  }

  /** After any absent run the first DISC_OK fires: a rip starts unless one is still under way. */
  lemma FirstDiscAfterAbsenceStarts(p: Poll, threshold: int, rs: seq<Reading>, r: Reading)
    requires p.last == Some(Absent) && r.state == DiscOk && forall q | q in rs :: q.state != DiscOk
    ensures var before := Polled(p, threshold, rs);
      Ticked(before, threshold, DiscOk, r.ripDone, r.node).1 <==> r.node && (!before.active || r.ripDone)
  {
    AbsenceForgets(p, threshold, rs);
  }

  lemma {:induction false} AbsenceForgets(p: Poll, threshold: int, rs: seq<Reading>)
    requires p.last == Some(Absent) && forall q | q in rs :: q.state != DiscOk
    ensures var before := Polled(p, threshold, rs); before.last == Some(Absent) || !before.detector.handled
    decreases |rs|
  {
    if rs != [] {
      assert rs[|rs| - 1] in rs;
      AbsenceForgets(p, threshold, rs[..|rs| - 1]);
    }
  }

  const Start: Poll := Poll(Detector(false, 0), None, false)

  // ----- when a rip starts, from the readings alone ----------------------------------------------------

  /** What a reading feeds the detector: coming back from an absence resets it first. */
  function Fed(last: Option<DriveState>, s: DriveState): seq<Feed> {
    if last == Some(Absent) && s != Absent then [Reset, Read(s)] else [Read(s)]
  }

  function LastState(rs: seq<Reading>): Option<DriveState> {
    if rs == [] then None else Some(rs[|rs| - 1].state)
  }

  function FeedsOf(rs: seq<Reading>): (feeds: seq<Feed>)
    ensures rs != [] ==> feeds != [] && feeds[|feeds| - 1] == Read(rs[|rs| - 1].state)
  {
    if rs == [] then [] else FeedsOf(rs[..|rs| - 1]) + Fed(LastState(rs[..|rs| - 1]), rs[|rs| - 1].state)
  }

  /** The last feed is a DISC_OK, and the disc of every earlier DISC_OK has left since. */
  predicate FirstDisc(feeds: seq<Feed>, threshold: int) {
    && feeds != [] && feeds[|feeds| - 1] == Read(DiscOk)
    && forall j | 0 <= j < |feeds| - 1 && feeds[j] == Read(DiscOk) :: RearmedAfter(feeds, threshold, j)
  }

  /** The first DISC_OK after a re-arming always fires, and no other. */
  lemma FiresIsFirstDisc(feeds: seq<Feed>, threshold: int)
    ensures Fires(feeds, threshold) <==> FirstDisc(feeds, threshold)
  {
    if Fires(feeds, threshold) {
      forall j | 0 <= j < |feeds| - 1 && feeds[j] == Read(DiscOk) ensures RearmedAfter(feeds, threshold, j) {
        if !Fires(feeds[..j + 1], threshold) {
          var i :| 0 <= i < j && Fires(feeds[..j + 1][..i + 1], threshold) && !RearmedAfter(feeds[..j + 1], threshold, i);
          assert feeds[..j + 1][..i + 1] == feeds[..i + 1];
          RearmedLater(feeds, threshold, i, j);
        }
      }
    }
  }

  /** A re-arming after `i` but not up to `j` comes after `j`. */
  lemma RearmedLater(feeds: seq<Feed>, threshold: int, i: nat, j: nat)
    requires i < j < |feeds| && RearmedAfter(feeds, threshold, i) && !RearmedAfter(feeds[..j + 1], threshold, i)
    ensures RearmedAfter(feeds, threshold, j)
  {
    var k :| i < k < |feeds| && Rearms(feeds, threshold, k);
    if k <= j {
      assert feeds[..j + 1][..k + 1] == feeds[..k + 1];
      assert Rearms(feeds[..j + 1], threshold, k);
    }
  }

  /** The rip started at tick `j` was seen to be over by the last tick. */
  predicate RipOver(rs: seq<Reading>, j: nat) {
    exists k | j < k < |rs| :: rs[k].ripDone
  }

  /** The last tick starts a rip: the disc is the first since a re-arming, the node is known, and every rip
      that was started before is over. */
  predicate Starts(rs: seq<Reading>, threshold: int)
    decreases |rs|
  {
    && rs != [] && FirstDisc(FeedsOf(rs), threshold) && rs[|rs| - 1].node
    && forall j | 0 <= j < |rs| - 1 && Starts(rs[..j + 1], threshold) :: RipOver(rs, j)
  }

  predicate UnderWay(rs: seq<Reading>, threshold: int) {
    exists j | 0 <= j < |rs| :: Starts(rs[..j + 1], threshold) && !RipOver(rs, j)
  }

  lemma RipOverMore(rs: seq<Reading>, r: Reading, j: nat)
    requires j < |rs|
    ensures RipOver(rs + [r], j) <==> RipOver(rs, j) || r.ripDone
  {
    var more := rs + [r];
    if RipOver(rs, j) {
      var k :| j < k < |rs| && rs[k].ripDone;
      assert more[k].ripDone;
    }
    if r.ripDone { assert more[|rs|].ripDone; }
  }

  lemma UnderWayMore(rs: seq<Reading>, r: Reading, threshold: int)
    ensures Starts(rs + [r], threshold) <==>
      FirstDisc(FeedsOf(rs + [r]), threshold) && r.node && (!UnderWay(rs, threshold) || r.ripDone)
    ensures UnderWay(rs + [r], threshold) <==> (UnderWay(rs, threshold) && !r.ripDone) || Starts(rs + [r], threshold)
  {
    var more := rs + [r];
    forall j | 0 <= j < |rs|
      ensures more[..j + 1] == rs[..j + 1]
      ensures RipOver(more, j) <==> RipOver(rs, j) || r.ripDone
    {
      RipOverMore(rs, r, j);
    }
    assert more[..|rs| + 1] == more;
    assert !RipOver(more, |rs|);
  }

  lemma FeedsMore(rs: seq<Reading>, r: Reading)
    ensures FeedsOf(rs + [r]) == FeedsOf(rs) + Fed(LastState(rs), r.state)
  {
    assert (rs + [r])[..|rs|] == rs;
  }

  lemma PolledMore(p: Poll, threshold: int, rs: seq<Reading>, r: Reading)
    ensures Polled(p, threshold, rs + [r]) == Ticked(Polled(p, threshold, rs), threshold, r.state, r.ripDone, r.node).0
  {
    assert (rs + [r])[..|rs|] == rs;
  }

  /** The detector that is fed a reading has seen exactly the feeds of the readings. */
  lemma TickFires(rs: seq<Reading>, r: Reading, threshold: int)
    ensures var d := After(FeedsOf(rs), threshold);
      var (next, fired) := Updated(if LastState(rs) == Some(Absent) && r.state != Absent then Detector(false, 0) else d, threshold, r.state);
      next == After(FeedsOf(rs + [r]), threshold) && (fired <==> FirstDisc(FeedsOf(rs + [r]), threshold))
  {
    var feeds := FeedsOf(rs);
    FeedsMore(rs, r);
    var before := if LastState(rs) == Some(Absent) && r.state != Absent then feeds + [Reset] else feeds;
    assert FeedsOf(rs + [r]) == before + [Read(r.state)];
    assert (before + [Read(r.state)])[..|before|] == before;
    FiresExactly(before, threshold, r.state);
    FiresIsFirstDisc(before + [Read(r.state)], threshold);
  }

  /** After any readings the loop is in the state they describe. */
  lemma {:induction false} LoopFollows(rs: seq<Reading>, threshold: int)
    ensures Polled(Start, threshold, rs) == Poll(After(FeedsOf(rs), threshold), LastState(rs), UnderWay(rs, threshold))
  {
    if rs != [] {
      var front, r := rs[..|rs| - 1], rs[|rs| - 1];
      assert rs == front + [r];
      LoopFollows(front, threshold);
      PolledMore(Start, threshold, front, r);
      TickFires(front, r, threshold);
      UnderWayMore(front, r, threshold);
    }
  }

  /** For every stream of readings from the start of the loop: a tick starts a rip exactly when its disc is the
      first since a re-arming, the node is known and every earlier rip is over. */
  lemma StartsExactly(rs: seq<Reading>, r: Reading, threshold: int)
    ensures Ticked(Polled(Start, threshold, rs), threshold, r.state, r.ripDone, r.node).1 <==> Starts(rs + [r], threshold)
  {
    LoopFollows(rs, threshold);
    TickFires(rs, r, threshold);
    UnderWayMore(rs, r, threshold);
  }

  // ----- what becomes of one disc ------------------------------------------------------------------------

  lemma RearmsInPrefix(feeds: seq<Feed>, more: seq<Feed>, threshold: int, j: nat)
    requires feeds <= more && RearmedAfter(feeds, threshold, j)
    ensures RearmedAfter(more, threshold, j)
  {
    var k :| j < k < |feeds| && Rearms(feeds, threshold, k);
    assert more[..k + 1] == feeds[..k + 1];
    assert Rearms(more, threshold, k);
  }

  /** Nothing re-arms the detector after tick `n`. */
  predicate SameDisc(rs: seq<Reading>, threshold: int, n: nat)
    requires n < |rs|
  {
    !RearmedAfter(FeedsOf(rs), threshold, |FeedsOf(rs[..n + 1])| - 1)
  }

  predicate StartsAt(rs: seq<Reading>, threshold: int, m: nat)
    requires m < |rs|
  {
    Starts(rs[..m + 1], threshold)
  }

  lemma StartsAtMeans(rs: seq<Reading>, threshold: int, n: nat)
    requires n < |rs|
    ensures StartsAt(rs, threshold, n) <==>
      FirstDisc(FeedsOf(rs[..n + 1]), threshold) && rs[n].node && (!Polled(Start, threshold, rs[..n]).active || rs[n].ripDone)
  {
    assert rs[..n + 1] == rs[..n] + [rs[n]];
    LoopFollows(rs[..n], threshold);
    UnderWayMore(rs[..n], rs[n], threshold);
  }

  lemma NotStartedAgain(rs: seq<Reading>, threshold: int, n: nat, m: nat)
    requires n < m < |rs| && rs[n].state == DiscOk && SameDisc(rs, threshold, n)
    ensures !StartsAt(rs, threshold, m)
  {
    StartsAtMeans(rs, threshold, m);
    NoSecondStart(rs[..n + 1], rs[..m + 1], rs, threshold);
  }

  /** The disc first seen at tick `n`, up to the next re-arming: a rip starts for it if and only if the node was
      known and no rip was under way at that very tick. */
  lemma DiscIsStartedAtOnce(rs: seq<Reading>, threshold: int, n: nat)
    requires n < |rs| && FirstDisc(FeedsOf(rs[..n + 1]), threshold) && SameDisc(rs, threshold, n)
    ensures (exists m | n <= m < |rs| :: StartsAt(rs, threshold, m)) <==>
      rs[n].node && (!Polled(Start, threshold, rs[..n]).active || rs[n].ripDone)
  {
    StartsAtMeans(rs, threshold, n);
    assert rs[n].state == DiscOk;
    forall m | n < m < |rs| ensures !StartsAt(rs, threshold, m) {
      NotStartedAgain(rs, threshold, n, m);
    }
  }

  /** More readings, more feeds. */
  lemma {:induction false} FeedsGrow(rs: seq<Reading>, more: seq<Reading>)
    requires rs <= more
    ensures FeedsOf(rs) <= FeedsOf(more) && (|rs| < |more| ==> |FeedsOf(rs)| < |FeedsOf(more)|)
  {
    if |rs| < |more| {
      FeedsGrow(rs, more[..|more| - 1]);
    } else {
      assert rs == more;
    }
  }

  lemma NotFirstAgain(front: seq<Feed>, feeds: seq<Feed>, more: seq<Feed>, threshold: int)
    requires front <= feeds <= more && 0 < |front| < |feeds| && front[|front| - 1] == Read(DiscOk)
    requires !RearmedAfter(more, threshold, |front| - 1)
    ensures !FirstDisc(feeds, threshold)
  {
    assert feeds[|front| - 1] == front[|front| - 1];
    if FirstDisc(feeds, threshold) {
      RearmsInPrefix(feeds, more, threshold, |front| - 1);
    }
  }

  lemma NoSecondStart(rs: seq<Reading>, more: seq<Reading>, all: seq<Reading>, threshold: int)
    requires rs <= more <= all && 0 < |rs| < |more| && rs[|rs| - 1].state == DiscOk
    requires !RearmedAfter(FeedsOf(all), threshold, |FeedsOf(rs)| - 1)
    ensures !FirstDisc(FeedsOf(more), threshold)
  {
    FeedsGrow(rs, more);
    FeedsGrow(more, all);
    NotFirstAgain(FeedsOf(rs), FeedsOf(more), FeedsOf(all), threshold);
  }

  const Swap: seq<Reading> := [Reading(DiscOk, false, true), Reading(TrayOpen, false, true), Reading(DiscOk, false, true)]

  /** A disc swapped in while its predecessor's rip is under way, from the start of the loop: it is never
      started, not even once that rip is over, as long as the drive only reports the disc or nothing. */
  lemma SwapDuringRipIsSwallowed(threshold: int, tail: seq<Reading>, r: Reading)
    requires r.state in {DiscOk, NoInfo} && forall q | q in tail :: q.state in {DiscOk, NoInfo}
    ensures FirstDisc(FeedsOf(Swap), threshold) && !Starts(Swap, threshold)
    ensures !Ticked(Polled(Start, threshold, Swap + tail), threshold, r.state, r.ripDone, r.node).1
  {
    SwapState(threshold);
    assert Swap == Swap[..2] + [Swap[2]];
    TickFires(Swap[..2], Swap[2], threshold);
    StartsExactly(Swap[..2], Swap[2], threshold);
    LoopFollows(Swap[..2], threshold);
    SwallowedStays(threshold, tail);
  }

  lemma SwapState(threshold: int)
    ensures Polled(Start, threshold, Swap[..2]) == Poll(Detector(false, 0), Some(TrayOpen), true)
    ensures Polled(Start, threshold, Swap) == Poll(Detector(true, 0), Some(DiscOk), true)
  {
    var one := Swap[..1];
    assert one == [] + [Swap[0]] && Swap[..2] == one + [Swap[1]] && Swap == Swap[..2] + [Swap[2]];
    PolledMore(Start, threshold, [], Swap[0]);
    PolledMore(Start, threshold, one, Swap[1]);
    PolledMore(Start, threshold, Swap[..2], Swap[2]);
  }

  lemma {:induction false} SwallowedStays(threshold: int, tail: seq<Reading>)
    requires forall q | q in tail :: q.state in {DiscOk, NoInfo}
    ensures var p := Polled(Start, threshold, Swap + tail); p.detector.handled && p.last in {Some(DiscOk), Some(NoInfo)}
    decreases |tail|
  {
    if tail == [] {
      assert Swap + tail == Swap;
      SwapState(threshold);
    } else {
      var front, q := tail[..|tail| - 1], tail[|tail| - 1];
      assert q in tail && Swap + tail == (Swap + front) + [q];
      SwallowedStays(threshold, front);
      PolledMore(Start, threshold, Swap + front, q);
    }
  }
}
