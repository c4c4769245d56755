/** Work waits for a never-probed GPU whose probe is on its way, instead of falling back or failing. */
module GpuBootPass {
  import opened Options
  import opened GpuProtocol
  import G = GpuGuarantees

  predicate NeverProbed(s: State, g: GpuId) {
    g in s.db.rows && !s.db.rows[g].probed
  }

  /** The boot pass owes `g` a probe, or some probe of it is under way. */
  predicate InWindow(p: Prober, g: GpuId) {
    (p.boot.Listed? && g in p.boot.targets) || (p.boot.Passing? && g in p.boot.queue) || g in p.probes
  }

  predicate EndsWindow(e: Event, g: GpuId) {
    e == B(End) || e == P(g, EndProbe)
  }

  predicate IsAwaiting(s: State, g: GpuId)
    requires g in s.db.rows
  {
    Inventory(s.db.rows, s.prober.probes.Keys, s.prober.pending, s.prober.listing).Awaiting(g)
  }

  // ----- a claim only ever holds a probed row ------------------------------------------------

  ghost predicate ClaimsProbed(session: Session, rows: Rows) {
    && (session.Reading? ==> forall g | g in session.snapshot && g in rows :: session.snapshot[g].probed ==> rows[g].probed)
    && (!session.Idle? && !session.Reading? && session.gpu in rows ==> rows[session.gpu].probed)
  }

  lemma ProbedOnce(s: State, e: Event, g: GpuId)
    ensures g in Step(s, e).db.rows ==> g in s.db.rows && (s.db.rows[g].probed ==> Step(s, e).db.rows[g].probed)
  {
    if e.R? { RequestOnlyFrees(s.db, s.disp, s.cancels, e.r, g); }
  }

  lemma StepKeepsClaimsProbed(s: State, e: Event)
    requires ClaimsProbed(s.disp.session, s.db.rows)
    ensures ClaimsProbed(Step(s, e).disp.session, Step(s, e).db.rows)
  {
    var s' := Step(s, e);
    forall g {:trigger s'.db.rows[g]} | g in s'.db.rows
      ensures g in s.db.rows && (s.db.rows[g].probed ==> s'.db.rows[g].probed)
    {
      ProbedOnce(s, e, g);
    }
  }

  // ----- the window stays open ---------------------------------------------------------------

  /** Between the listing and the end of its own probe no event takes a never-probed row out. */
  lemma StepKeepsWindow(s: State, e: Event, g: GpuId)
    requires Inv(s) && ClaimsProbed(s.disp.session, s.db.rows)
    requires NeverProbed(s, g) && InWindow(s.prober, g) && !EndsWindow(e, g)
    ensures InWindow(Step(s, e).prober, g)
  {
    assert g !in s.disp.claimed;
    var boot := s.prober.boot;
    if boot.Passing? && boot.queue != [] {
      assert g in boot.queue ==> g == boot.queue[0] || g in boot.queue[1..];
    }
  }

  /** Whatever else happens meanwhile, a listed row that is still never probed is still awaiting. */
  lemma {:induction false} ListedRowStaysAwaiting(s: State, es: seq<Event>, g: GpuId)
    requires Inv(s) && ClaimsProbed(s.disp.session, s.db.rows) && InWindow(s.prober, g)
    requires forall e | e in es :: !EndsWindow(e, g)
    requires NeverProbed(Run(s, es), g)
    ensures Inv(Run(s, es)) && ClaimsProbed(Run(s, es).disp.session, Run(s, es).db.rows)
    ensures InWindow(Run(s, es).prober, g) && IsAwaiting(Run(s, es), g)
    decreases |es|
  {
    if es != [] {
      var prefix, e := es[..|es| - 1], es[|es| - 1];
      assert Run(s, es) == Step(Run(s, prefix), e);
      ProbedOnce(Run(s, prefix), e, g);
      ListedRowStaysAwaiting(s, prefix, g);
      StepKeepsInv(Run(s, prefix), e);
      StepKeepsClaimsProbed(Run(s, prefix), e);
      StepKeepsWindow(Run(s, prefix), e, g);
    }
  }

  // ----- what the claim answers meanwhile ----------------------------------------------------

  /** The boot pass is still listing, or `g` is in the window. */
  predicate Owed(p: Prober, g: GpuId) {
    p.boot.Listing? || p.boot.Listed? || InWindow(p, g)
  }

  /** While a never-probed row that could serve the encoder is owed a probe, the claim either queues the
      task or hands it a device that has verified the codec. */
  lemma NeverFallsBack(rows: Rows, tasks: Tasks, es: seq<Event>, g: GpuId, enc: Encoder, container: Container, d: Decision)
    requires RowsOk(rows, tasks)
    requires var s := Run(Init(rows, tasks), es);
      && s.disp.session.Reading? && Owed(s.prober, g) && s.Sees().Answers(enc, container, d)
      && g in s.disp.session.snapshot && !s.disp.session.snapshot[g].probed
      && CouldServe(s.disp.session.snapshot[g], enc, container)
    ensures var snapshot := Run(Init(rows, tasks), es).disp.session.snapshot;
      d == Queue || (d.SpawnGpu? && d.gpu in snapshot && Eligible(snapshot[d.gpu], enc, container))
  {
    var s := Run(Init(rows, tasks), es);
    G.RunFromInit(rows, tasks, es);
    assert s.Sees().Awaiting(g);
    assert s.Sees().rows == s.disp.session.snapshot;
  }

  /** The guarantee ends with the probe: a claim whose select ran before the probe wrote, and which
      decides after the probe ended, falls back although the row has verified the codec by then. */
  lemma StaleSelectFallsBack(row: GpuRow, t: TaskId, g: GpuId, codec: Codec, container: Container)
    requires row.enabled && !row.probed && !InUse(row) && SupportsContainer(row.vendor, container)
    ensures exists s ::
      && G.Reachable(Init(map[g := row], map[t := Queued]), s)
      && s.disp.session.Reading? && s.Sees().Answers(AnyGpu(codec), container, SpawnCpuFallback)
      && g in s.db.rows && Eligible(s.db.rows[g], AnyGpu(codec), container) && !G.ClaimHolds(s, g)
  {
    var s0 := Init(map[g := row], map[t := Queued]);
    var s3 := ProbeReachesDevice(s0, g);
    G.ReachNext(s0, s3, D(ReadGpus(t)));
    var s4 := Step(s3, D(ReadGpus(t)));
    G.ReachNext(s0, s4, P(g, Write(Some({codec}))));
    var s5 := Step(s4, P(g, Write(Some({codec}))));
    G.ReachNext(s0, s5, P(g, EndProbe));
    ProbeFinishes(s4, g, codec);
    var s6 := Step(s5, P(g, EndProbe));
    UnprobedOnlyFallsBack(s6, g, codec, container);
  }

  /** What the select said of a device kept it from counting: not there, disabled, not probed or the codec
      not verified. */
  predicate UnfitInSnapshot(snapshot: Rows, g: GpuId, codec: Codec) {
    g in snapshot ==> !snapshot[g].enabled || !snapshot[g].probed || codec !in snapshot[g].verified
  }

  /** A row's vendor never changes. */
  predicate SameVendors(session: Session, rows: Rows) {
    session.Reading? ==> forall h | h in session.snapshot && h in rows :: session.snapshot[h].vendor == rows[h].vendor
  }

  lemma VendorFixed(s: State, e: Event, g: GpuId)
    ensures g in Step(s, e).db.rows ==> g in s.db.rows && Step(s, e).db.rows[g].vendor == s.db.rows[g].vendor
  {
  }

  lemma {:induction false} VendorsFixed(rows: Rows, tasks: Tasks, es: seq<Event>)
    ensures var s := Run(Init(rows, tasks), es); SameVendors(s.disp.session, s.db.rows)
    decreases |es|
  {
    if es != [] {
      var s, e := Run(Init(rows, tasks), es[..|es| - 1]), es[|es| - 1];
      VendorsFixed(rows, tasks, es[..|es| - 1]);
      forall g {:trigger Step(s, e).db.rows[g]} | g in Step(s, e).db.rows
        ensures g in s.db.rows && Step(s, e).db.rows[g].vendor == s.db.rows[g].vendor
      {
        VendorFixed(s, e, g);
      }
    }
  }

  predicate FallsBack(s: State, codec: Codec, container: Container)
    requires s.disp.session.Reading?
  {
    var snapshot := s.disp.session.snapshot;
    && (forall h | h in snapshot && SupportsContainer(snapshot[h].vendor, container) :: UnfitInSnapshot(snapshot, h, codec))
    && (forall h | h in snapshot && SupportsContainer(snapshot[h].vendor, container) && snapshot[h].enabled && !snapshot[h].probed ::
          !s.prober.listing && h !in s.prober.pending && h !in s.prober.probes)
  }

  lemma FallbackMeans(s: State, codec: Codec, container: Container)
    requires s.disp.session.Reading?
    ensures s.Sees().Answers(AnyGpu(codec), container, SpawnCpuFallback) <==> FallsBack(s, codec, container)
  {
    assert s.Sees().rows == s.disp.session.snapshot;
  }

  /** In every run: when a claim for any GPU falls back although a device could serve it by now, that device was
      unfit in the claim's select; and it falls back exactly when no device of the select was fit and no
      never-probed one that could serve it is still awaiting. */
  lemma StaleFallbackExactly(rows: Rows, tasks: Tasks, es: seq<Event>, codec: Codec, container: Container, g: GpuId)
    requires var s := Run(Init(rows, tasks), es);
      s.disp.session.Reading? && g in s.db.rows && Eligible(s.db.rows[g], AnyGpu(codec), container)
    ensures var s := Run(Init(rows, tasks), es);
      && (s.Sees().Answers(AnyGpu(codec), container, SpawnCpuFallback) ==> UnfitInSnapshot(s.disp.session.snapshot, g, codec))
      && (s.Sees().Answers(AnyGpu(codec), container, SpawnCpuFallback) <==> FallsBack(s, codec, container))
  {
    VendorsFixed(rows, tasks, es);
    FallbackMeans(Run(Init(rows, tasks), es), codec, container);
  }

  lemma UnprobedOnlyFallsBack(s: State, g: GpuId, codec: Codec, container: Container)
    requires s.disp.session.Reading? && s.prober == Prober(map[], {}, false, NotStarted)
    requires s.disp.session.snapshot.Keys == {g} && !s.disp.session.snapshot[g].probed
    ensures s.Sees().Answers(AnyGpu(codec), container, SpawnCpuFallback)
  {
  }

  lemma ProbeReachesDevice(s0: State, g: GpuId) returns (s: State)
    requires g in s0.db.rows && !InUse(s0.db.rows[g]) && s0 == Init(s0.db.rows, s0.db.tasks)
    ensures G.Reachable(s0, s) && s == s0.(prober := s0.prober.(probes := map[g := Probe(false, Running)]))
  {
    assert Run(s0, []) == s0;
    G.ReachNext(s0, s0, P(g, StartProbe));
    var s1 := Step(s0, P(g, StartProbe));
    G.ReachNext(s0, s1, P(g, ReadRow));
    var s2 := Step(s1, P(g, ReadRow));
    G.ReachNext(s0, s2, P(g, CheckInUse));
    s := Step(s2, P(g, CheckInUse));
  }

  lemma ProbeFinishes(s: State, g: GpuId, codec: Codec)
    requires g in s.db.rows && s.prober == Prober(map[g := Probe(false, Running)], {}, false, NotStarted)
    ensures var s' := Step(Step(s, P(g, Write(Some({codec})))), P(g, EndProbe));
      && s'.disp == s.disp && s'.prober == Prober(map[], {}, false, NotStarted)
      && s'.db.rows == s.db.rows[g := Recorded(s.db.rows[g], Some({codec}))]
  {
  }
}
