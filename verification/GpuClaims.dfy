/** What a claim answers, said of the rows and the id sets alone: exactly when a task gets a device, waits, runs on
    the CPU or fails, for every encoder and container. */
module GpuClaims {
  import opened Options
  import opened GpuProtocol

  /** The encoder needs a device. */
  predicate OnGpu(enc: Encoder) { enc.AnyGpu? || enc.Pinned? }

  /** A device the encoder can be given at all: enabled, of the pinned vendor, and a VAAPI one only for the two
      containers it writes. */
  predicate Suits(row: GpuRow, enc: Encoder, container: Container) {
    row.enabled && (enc.Pinned? ==> row.vendor == enc.vendor) && (row.vendor == VAAPI ==> container in {MKV, MP4})
  }

  /** It was probed and the probe verified the codec. */
  predicate Fit(row: GpuRow, enc: Encoder, container: Container)
    requires OnGpu(enc)
  {
    Suits(row, enc, container) && row.probed && enc.codec in row.verified
  }

  /** Some device is fit, be it busy or being probed. */
  predicate SomeFit(inv: Inventory, enc: Encoder, container: Container)
    requires OnGpu(enc)
  {
    exists g | g in inv.rows :: Fit(inv.rows[g], enc, container)
  }

  /** A fit device that nobody uses: neither BUSY nor being probed. */
  predicate Usable(inv: Inventory, g: GpuId, enc: Encoder, container: Container)
    requires OnGpu(enc)
  {
    g in inv.rows && Fit(inv.rows[g], enc, container) && !inv.rows[g].busy && g !in inv.probing
  }

  ghost predicate SomeUsable(inv: Inventory, enc: Encoder, container: Container)
    requires OnGpu(enc)
  {
    exists g :: Usable(inv, g, enc, container)
  }

  /** A never-probed device that may turn out fit is still owed its probe. */
  predicate SomeOwed(inv: Inventory, enc: Encoder, container: Container) {
    exists g | g in inv.rows ::
      Suits(inv.rows[g], enc, container) && !inv.rows[g].probed && (inv.listing || g in inv.pending || g in inv.probing)
  }

  /** A pinned vendor that cannot write the container. */
  predicate Unwritable(enc: Encoder, container: Container) {
    enc.Pinned? && enc.vendor == VAAPI && container !in {MKV, MP4}
  }

  predicate NoHope(inv: Inventory, enc: Encoder, container: Container)
    requires OnGpu(enc)
  {
    !SomeFit(inv, enc, container) && !SomeOwed(inv, enc, container)
  }

  lemma SameRules(inv: Inventory, g: GpuId, enc: Encoder, container: Container)
    requires OnGpu(enc) && g in inv.rows
    ensures Eligible(inv.rows[g], enc, container) <==> Fit(inv.rows[g], enc, container)
    ensures CouldServe(inv.rows[g], enc, container) <==> Suits(inv.rows[g], enc, container)
    ensures inv.Free(g, enc, container) <==> Usable(inv, g, enc, container)
    ensures inv.Candidate(g, enc, container) <==> Fit(inv.rows[g], enc, container) && g !in inv.probing
  {
  }

  lemma SameQuestions(inv: Inventory, enc: Encoder, container: Container)
    requires OnGpu(enc)
    ensures (exists g :: g in inv.rows && Eligible(inv.rows[g], enc, container)) <==> SomeFit(inv, enc, container)
    ensures (exists g :: inv.Free(g, enc, container)) <==> SomeUsable(inv, enc, container)
    ensures (exists g :: g in inv.rows && CouldServe(inv.rows[g], enc, container) && inv.Awaiting(g)) <==> SomeOwed(inv, enc, container)
    ensures (exists g :: inv.Candidate(g, enc, container)) ==> SomeFit(inv, enc, container)
    ensures SomeUsable(inv, enc, container) ==> exists g :: inv.Candidate(g, enc, container)
  {
    forall g | g in inv.rows
      ensures Eligible(inv.rows[g], enc, container) <==> Fit(inv.rows[g], enc, container)
      ensures CouldServe(inv.rows[g], enc, container) <==> Suits(inv.rows[g], enc, container)
      ensures inv.Free(g, enc, container) <==> Usable(inv, g, enc, container)
      ensures inv.Candidate(g, enc, container) <==> Fit(inv.rows[g], enc, container) && g !in inv.probing
    {
      SameRules(inv, g, enc, container);
    }
    if g :| inv.Free(g, enc, container) { assert inv.Candidate(g, enc, container); }
    if g :| Usable(inv, g, enc, container) { assert inv.Free(g, enc, container); }
  }

  /** For every encoder and container, exactly when the claim gives each of its answers. */
  lemma ClaimExactly(inv: Inventory, enc: Encoder, container: Container, d: Decision)
    requires inv.Answers(enc, container, d)
    ensures d == SpawnPlain <==> enc.PresetOwn? || enc.Cpu?
    ensures d == SpawnCpuFallback <==> enc.AnyGpu? && NoHope(inv, enc, container)
    ensures d == Fail <==> enc.Unknown? || Unwritable(enc, container) || (enc.Pinned? && NoHope(inv, enc, container))
    ensures d.SpawnGpu? <==> OnGpu(enc) && SomeUsable(inv, enc, container)
    ensures d == Queue <==>
      OnGpu(enc) && !Unwritable(enc, container) && !SomeUsable(inv, enc, container) && !NoHope(inv, enc, container)
  {
    if OnGpu(enc) {
      SameQuestions(inv, enc, container);
      if Unwritable(enc, container) { assert forall g | g in inv.rows :: !Suits(inv.rows[g], enc, container); }
    }
  }

  /** The order devices are preferred in: NVENC, then QSV, then VAAPI; one vendor's by device path. */
  predicate Preferred(a: GpuRow, b: GpuRow) {
    if a.vendor == b.vendor then a.path <= b.path else a.vendor == NVENC || b.vendor == VAAPI
  }

  /** A device that is handed out is usable, of the pinned vendor with the codec verified, and none usable is
      preferred to it. */
  lemma ClaimedDevice(inv: Inventory, enc: Encoder, container: Container, d: Decision)
    requires inv.Answers(enc, container, d) && d.SpawnGpu?
    ensures OnGpu(enc) && Usable(inv, d.gpu, enc, container)
    ensures forall g :: Usable(inv, g, enc, container) ==> Preferred(inv.rows[d.gpu], inv.rows[g])
  {
    SameRules(inv, d.gpu, enc, container);
    forall g | Usable(inv, g, enc, container) ensures Preferred(inv.rows[d.gpu], inv.rows[g]) {
      SameRules(inv, g, enc, container);
      assert inv.Before(d.gpu, g);
    }
  }

  /** A probe that ran records what it found; one that could not test the device keeps the encoders the row had;
      either way the row counts as probed, and no other row changes. */
  lemma ProbeRecords(s: State, g: GpuId, outcome: Option<set<Codec>>)
    requires g in s.db.rows && g in s.prober.probes && s.prober.probes[g].phase.Running?
    ensures var rows := Step(s, P(g, Write(outcome))).db.rows;
      && rows.Keys == s.db.rows.Keys && (forall h | h in rows && h != g :: rows[h] == s.db.rows[h])
      && rows[g].probed && rows[g].verified == (if outcome.Some? then outcome.value else s.db.rows[g].verified)
      && rows[g].busy == s.db.rows[g].busy && rows[g].claimant == s.db.rows[g].claimant && rows[g].enabled == s.db.rows[g].enabled
  {
  }

  /** A capable backend's boot pass lists exactly the enabled rows that were never probed or verified nothing, and
      reaches the first of them with a probe; without the capability it ends at once and reserves nothing. */
  lemma BootPassStarts(rows: Rows, tasks: Tasks, targets: seq<GpuId>)
    requires targets != [] && NoRepeat(targets)
    requires forall g :: g in targets <==> g in rows && rows[g].enabled && (!rows[g].probed || rows[g].verified == {})
    ensures var s := Run(Init(rows, tasks), [B(Start(true)), B(ReadTargets(targets)), B(Reserve), B(Next)]);
      && s.prober.boot == Passing(targets) && s.prober.pending == Members(targets) && !s.prober.listing
      && s.prober.probes == map[targets[0] := Probe(true, Reserved)] && s.db == Db(rows, tasks)
    ensures Step(Init(rows, tasks), B(Start(false))) == Init(rows, tasks).(prober := Prober(map[], {}, false, Ended))
  {
    var s0 := Init(rows, tasks);
    var s1 := Step(s0, B(Start(true)));
    var s2 := Step(s1, B(ReadTargets(targets)));
    assert Lists(targets, rows);
    var s3 := Step(s2, B(Reserve));
    var es := [B(Start(true)), B(ReadTargets(targets)), B(Reserve), B(Next)];
    assert es[..3][..2] == es[..2] && es[..2][..1] == es[..1] && es[..1][..0] == [];
    assert Run(s0, es[..1]) == s1;
    assert Run(s0, es[..2]) == s2;
    assert Run(s0, es[..3]) == s3;
  }
}
