/** `_respawn_parked`: how often the ripper of a parked ISO rip is started again. */
module RespawnLimiter {
  type DriveId = nat

  const CRASH_LOOP_WINDOW: int := 90
  const RESPAWN_BUDGET: nat := 3
  const BUDGET_WINDOW: int := 3600

  /** The starts less than the budget window before `now`, oldest first. */
  function Recent(starts: seq<int>, now: int): seq<int> {
    if starts == [] then []
    else
      var last := starts[|starts| - 1];
      Recent(starts[..|starts| - 1], now) + if now - last < BUDGET_WINDOW then [last] else []
  }

  predicate Ascending(starts: seq<int>) {
    forall i, j | 0 <= i < j < |starts| :: starts[i] <= starts[j]
  }

  /** Starts are a crash window apart, and no budget window holds more than the budget of them. */
  predicate Spaced(starts: seq<int>) {
    && (forall i, j | 0 <= i < j < |starts| :: starts[i] + CRASH_LOOP_WINDOW <= starts[j])
    && (forall i, j | 0 <= i && i + RESPAWN_BUDGET <= j < |starts| :: starts[i] + BUDGET_WINDOW <= starts[j])
  }

  function Last(starts: seq<int>): int
    requires starts != []
  {
    starts[|starts| - 1]
  }

  /** May a drive with these past starts be started at `now`? */
  predicate MayStart(starts: seq<int>, now: int) {
    (starts == [] || now - Last(starts) >= CRASH_LOOP_WINDOW) && |Recent(starts, now)| < RESPAWN_BUDGET
  }

  /** Of starts in order the recent ones are the last. */
  lemma {:induction false} RecentCount(starts: seq<int>, now: int, n: nat)
    requires Ascending(starts) && n <= |starts|
    ensures |Recent(starts, now)| >= n <==> forall i | |starts| - n <= i < |starts| :: now - starts[i] < BUDGET_WINDOW
    decreases |starts|
  {
    if starts != [] {
      var h, t := starts[..|starts| - 1], starts[|starts| - 1];
      if n > 0 { RecentCount(h, now, n - 1); }
      if now - t >= BUDGET_WINDOW {
        AllOld(starts, now);
      } else if n > 0 {
        assert forall i | |h| - (n - 1) <= i < |h| :: h[i] == starts[i];
      }
    }
  }

  /** A ripper may be started again if and only if its last start is ninety seconds ago and the third last an hour. */
  lemma MayStartExactly(starts: seq<int>, now: int)
    requires Ascending(starts)
    ensures MayStart(starts, now) <==>
      && (starts == [] || starts[|starts| - 1] + 90 <= now)
      && (|starts| < 3 || starts[|starts| - 3] + 3600 <= now)
  {
    if |starts| >= 3 {
      RecentCount(starts, now, 3);
    } else {
      RecentIsSuffix(starts, now);
    }
  }

  /** The check on the recent starts alone. */
  predicate Allowed(recent: seq<int>, now: int) {
    !(recent != [] && now - Last(recent) < CRASH_LOOP_WINDOW) && |recent| < RESPAWN_BUDGET
  }

  lemma {:induction false} AllOld(h: seq<int>, now: int)
    requires Old(h, |h|, now)
    ensures Recent(h, now) == []
  {
    if h != [] { AllOld(h[..|h| - 1], now); }
  }

  /** The recent starts are the end of all starts, and what is before it is old. */
  lemma {:induction false} RecentIsSuffix(starts: seq<int>, now: int)
    requires Ascending(starts)
    ensures var r := Recent(starts, now); Suffix(r, starts) && Old(starts, |starts| - |r|, now)
  {
    if starts != [] {
      var h, t := starts[..|starts| - 1], starts[|starts| - 1];
      assert starts == h + [t];
      if now - t < BUDGET_WINDOW {
        RecentIsSuffix(h, now);
        SuffixMore(h, Recent(h, now), t);
        OldStaysOld(h, |h| - |Recent(h, now)|, now, now, t);
      } else {
        AllOld(starts, now);
      }
    }
  }

  predicate Suffix(k: seq<int>, h: seq<int>) {
    |k| <= |h| && k == h[|h| - |k|..]
  }

  /** The first `n` starts are past the budget window at `now`. */
  predicate Old(h: seq<int>, n: int, now: int) {
    forall i | 0 <= i < |h| && i < n :: now - h[i] >= BUDGET_WINDOW
  }

  predicate UpTo(h: seq<int>, now: int) {
    forall i | 0 <= i < |h| :: h[i] <= now
  }

  /** What is remembered of a drive is the recent end of its starts, as of some earlier moment. */
  predicate Remembers(h: seq<int>, k: seq<int>, clock: int) {
    Ascending(h) && Spaced(h) && UpTo(h, clock) && Suffix(k, h) && Old(h, |h| - |k|, clock)
  }

  function StartsIn(all: map<DriveId, seq<int>>, d: DriveId): seq<int> {
    if d in all then all[d] else []
  }

  lemma TimeGoesOn(h: seq<int>, k: seq<int>, clock: int, later: int)
    requires Remembers(h, k, clock) && clock <= later
    ensures Remembers(h, k, later)
  {
  }

  class Limiter {
    var kept: map<DriveId, seq<int>>         // _respawned
    ghost var all: map<DriveId, seq<int>>    // every start there ever was
    ghost var clock: int

    constructor (now: int)
      ensures Valid() && kept == map[] && clock == now
    {
      kept, all, clock := map[], map[], now;
    }

    ghost function Starts(d: DriveId): seq<int>
      reads this`all
    {
      StartsIn(all, d)
    }

    function Kept(d: DriveId): seq<int>
      reads this`kept
    {
      StartsIn(kept, d)
    }

    ghost predicate Valid()
      reads this
    {
      forall d: DriveId :: Remembers(StartsIn(all, d), StartsIn(kept, d), clock)
    }

    /** Starts the ripper exactly when the drive's whole past allows it and the manager can; the past stays
        spaced out. `started` is the time the start is recorded at. */
    method RespawnParked(d: DriveId, now: int, managerStarts: bool, started: int) returns (ok: bool)
      requires Valid() && clock <= now <= started
      modifies this
      ensures Valid() && clock == started
      ensures ok <==> MayStart(old(Starts(d)), now) && managerStarts
      ensures Starts(d) == old(Starts(d)) + if ok then [started] else []
      ensures forall e | e != d :: Starts(e) == old(Starts(e))
    {
      ghost var h := Starts(d);
      Decide(h, Kept(d), clock, now, started);
      var starts := Recent(Kept(d), now);
      ok := Allowed(starts, now) && managerStarts;
      if ok {
        Store(d, h + [started], starts + [started], started);
      } else {
        Store(d, h, starts, started);
      }
    }

    method Store(d: DriveId, ghost h: seq<int>, k: seq<int>, ghost now: int)
      requires Valid() && clock <= now && Remembers(h, k, now)
      modifies this
      ensures Valid() && clock == now && Starts(d) == h
      ensures forall e | e != d :: Starts(e) == old(Starts(e))
    {
      ghost var starts, known, was := all, kept, clock;
      assert forall e: DriveId :: Remembers(StartsIn(starts, e), StartsIn(known, e), was);
      kept := kept[d := k];
      all := all[d := h];
      clock := now;
      forall e: DriveId ensures Remembers(StartsIn(all, e), StartsIn(kept, e), now) {
        if e != d { TimeGoesOn(StartsIn(starts, e), StartsIn(known, e), was, now); }
      }
    }
  }

  /** What is remembered decides as the whole past would, and goes on doing so. */
  lemma Decide(h: seq<int>, k: seq<int>, clock: int, now: int, started: int)
    requires Remembers(h, k, clock) && clock <= now <= started
    ensures Allowed(Recent(k, now), now) <==> MayStart(h, now)
    ensures Remembers(h, Recent(k, now), started)
    ensures MayStart(h, now) ==> Remembers(h + [started], Recent(k, now) + [started], started)
  {
    KeptRecent(h, k, clock, now);
    LastIsRecent(h, now);
    Pruned(h, now, started);
    if MayStart(h, now) { OneMore(h, now, started); }
  }

  lemma Pruned(h: seq<int>, now: int, started: int)
    requires Ascending(h) && Spaced(h) && now <= started && UpTo(h, now)
    ensures Remembers(h, Recent(h, now), started)
  {
    RecentIsSuffix(h, now);
    OldStaysOld(h, |h| - |Recent(h, now)|, now, started, started);
  }

  /** What is remembered is enough to know the recent starts. */
  lemma {:induction false} KeptRecent(h: seq<int>, k: seq<int>, clock: int, now: int)
    requires Suffix(k, h) && Old(h, |h| - |k|, clock) && clock <= now
    ensures Recent(k, now) == Recent(h, now)
  {
    if k == [] {
      AllOld(h, now);
    } else {
      assert Last(k) == Last(h);
      KeptRecent(h[..|h| - 1], k[..|k| - 1], clock, now);
    }
  }

  /** The last start is the last of the recent ones, if there are any. */
  lemma LastIsRecent(h: seq<int>, now: int)
    requires Ascending(h)
    ensures Recent(h, now) == [] ==> h == [] || now - Last(h) >= BUDGET_WINDOW
    ensures Recent(h, now) != [] ==> Last(Recent(h, now)) == Last(h)
  {
    if h != [] && now - Last(h) >= BUDGET_WINDOW { AllOld(h, now); }
  }

  lemma OneMore(h: seq<int>, now: int, started: int)
    requires Ascending(h) && Spaced(h) && MayStart(h, now) && now <= started && UpTo(h, now)
    ensures Remembers(h + [started], Recent(h, now) + [started], started)
  {
    SpacedMore(h, now, started);
    RecentIsSuffix(h, now);
    SuffixMore(h, Recent(h, now), started);
    OldStaysOld(h, |h| - |Recent(h, now)|, now, started, started);
  }

  lemma OldStaysOld(h: seq<int>, n: nat, now: int, later: int, t: int)
    requires n <= |h| && now <= later && Old(h, n, now)
    ensures Old(h + [t], n, later) && Old(h, n, later)
  {
  }

  lemma SuffixMore(h: seq<int>, r: seq<int>, t: int)
    requires Suffix(r, h)
    ensures Suffix(r + [t], h + [t])
  {
  }

  lemma SpacedMore(h: seq<int>, now: int, started: int)
    requires Ascending(h) && Spaced(h) && MayStart(h, now) && now <= started && UpTo(h, now)
    ensures Ascending(h + [started]) && Spaced(h + [started]) && UpTo(h + [started], started)
  {
    RecentIsSuffix(h, now);
    var n := |h| - |Recent(h, now)|;
    forall i | 0 <= i < |h|
      ensures h[i] + CRASH_LOOP_WINDOW <= started && (i + RESPAWN_BUDGET <= |h| ==> h[i] + BUDGET_WINDOW <= started)
    {
      assert h[i] <= Last(h);
      assert i < n ==> now - h[i] >= BUDGET_WINDOW;
    }
    AppendSpaced(h, started);
  }

  lemma AppendSpaced(h: seq<int>, t: int)
    requires Ascending(h) && Spaced(h)
    requires forall i | 0 <= i < |h| :: h[i] + CRASH_LOOP_WINDOW <= t && (i + RESPAWN_BUDGET <= |h| ==> h[i] + BUDGET_WINDOW <= t)
    ensures Ascending(h + [t]) && Spaced(h + [t]) && UpTo(h + [t], t)
  {
  }
}
