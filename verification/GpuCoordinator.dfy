/** The dispatcher's and the probe runner's stretches of code between two awaits, as they mutate the
    shared sets and the rows, each proved against the protocol's step. */
module GpuCoordinator {
  import opened Options
  import opened GpuProtocol

  /** Which of the claim's three inventory questions have a yes. */
  method Survey(all: seq<GpuId>, inv: Inventory, enc: Encoder, container: Container)
    returns (eligible: bool, candidates: bool, awaiting: bool)
    requires (enc.AnyGpu? || enc.Pinned?) && forall g :: g in all <==> g in inv.rows
    ensures eligible <==> exists g :: g in inv.rows && Eligible(inv.rows[g], enc, container)
    ensures candidates <==> exists g :: inv.Candidate(g, enc, container)
    ensures awaiting <==> exists g :: g in inv.rows && CouldServe(inv.rows[g], enc, container) && inv.Awaiting(g)
  {
    eligible, candidates, awaiting := false, false, false;
    for i := 0 to |all|
      invariant eligible <==> exists k | 0 <= k < i :: Eligible(inv.rows[all[k]], enc, container)
      invariant candidates <==> exists k | 0 <= k < i :: inv.Candidate(all[k], enc, container)
      invariant awaiting <==> exists k | 0 <= k < i :: CouldServe(inv.rows[all[k]], enc, container) && inv.Awaiting(all[k])
    {
      var g := all[i];
      eligible := eligible || Eligible(inv.rows[g], enc, container);
      candidates := candidates || (Eligible(inv.rows[g], enc, container) && g !in inv.probing);
      awaiting := awaiting || (CouldServe(inv.rows[g], enc, container) && inv.Awaiting(g));
    }
  }

  /** The free candidate that sorts first by vendor rank and device path. */
  method BestFree(all: seq<GpuId>, inv: Inventory, enc: Encoder, container: Container) returns (best: Option<GpuId>)
    requires forall g :: g in all <==> g in inv.rows
    ensures best.Some? ==> inv.Best(best.value, enc, container)
    ensures best.None? ==> forall g :: !inv.Free(g, enc, container)
  {
    best := None;
    for i := 0 to |all|
      invariant best.Some? ==> inv.Free(best.value, enc, container)
      invariant forall k | 0 <= k < i && inv.Free(all[k], enc, container) :: best.Some? && inv.Before(best.value, all[k])
    {
      var g := all[i];
      if inv.Free(g, enc, container) && (best.None? || !inv.Before(best.value, g)) { best := Some(g); }
    }
  }

  class GpuCoordinator {
    var rows: Rows
    var claimedGpuIds: set<GpuId>
    var probingGpuIds: set<GpuId>
    var pendingProbeGpuIds: set<GpuId>
    var bootProbeListing: bool
    ghost var prober: Prober

    ghost predicate Valid()
      reads this
    {
      && probingGpuIds == prober.probes.Keys
      && pendingProbeGpuIds == prober.pending && bootProbeListing == prober.listing
    }

    constructor (rows: Rows)
      ensures Valid() && this.rows == rows && claimedGpuIds == {} && prober == Prober(map[], {}, false, NotStarted)
    {
      this.rows := rows;
      claimedGpuIds, probingGpuIds, pendingProbeGpuIds, bootProbeListing := {}, {}, {}, false;
      prober := Prober(map[], {}, false, NotStarted);
    }

    /** `_claim_gpu_for_task` after its select returned `all`: the answer, and the claim mark it leaves. */
    method ClaimGpuForTask(all: seq<GpuId>, snapshot: Rows, enc: Encoder, container: Container) returns (d: Decision)
      requires Valid() && forall g :: g in all <==> g in snapshot
      modifies this`claimedGpuIds
      ensures Valid()
      ensures Inventory(snapshot, probingGpuIds, pendingProbeGpuIds, bootProbeListing).Answers(enc, container, d)
      ensures claimedGpuIds == old(claimedGpuIds) + if d.SpawnGpu? then {d.gpu} else {}
    {
      if enc.Unknown? { return Fail; }
      if enc.PresetOwn? || enc.Cpu? { return SpawnPlain; }
      if enc.Pinned? && !SupportsContainer(enc.vendor, container) { return Fail; }
      var inv := Inventory(snapshot, probingGpuIds, pendingProbeGpuIds, bootProbeListing);
      var eligible, candidates, awaiting := Survey(all, inv, enc, container);
      if !candidates {
        if eligible { return Queue; }
        if awaiting { return Queue; }
        return if enc.AnyGpu? then SpawnCpuFallback else Fail;
      }
      var best := BestFree(all, inv, enc, container);
      if best.None? { return Queue; }
      claimedGpuIds := claimedGpuIds + {best.value};
      return SpawnGpu(best.value);
    }

    /** `release_gpu_for_task`: every row the task claims goes back to AVAILABLE. */
    method ReleaseGpuForTask(all: seq<GpuId>, t: TaskId)
      requires forall g :: g in all <==> g in rows
      modifies this`rows
      ensures rows == ReleaseFor(old(rows), t)
    {
      for i := 0 to |all|
        invariant rows.Keys == old(rows).Keys
        invariant forall g | g in rows :: rows[g] == if g in all[..i] then ReleaseFor(old(rows), t)[g] else old(rows)[g]
      {
        var g := all[i];
        if rows[g].claimant == Some(t) { rows := rows[g := rows[g].(busy := false, claimant := None)]; }
      }
      assert all[..|all|] == all;
    }

    /** `_release_orphaned_gpu_claims` at boot. */
    method ReleaseOrphanedGpuClaims(all: seq<GpuId>, tasks: Tasks) returns (released: nat)
      requires forall g :: g in all <==> g in rows
      modifies this`rows
      ensures rows == FreeOrphans(old(rows), tasks)
      ensures released > 0 <==> exists g :: g in rows && old(rows)[g].busy && !rows[g].busy
    {
      released := 0;
      for i := 0 to |all|
        invariant rows.Keys == old(rows).Keys
        invariant forall g | g in rows :: rows[g] == if g in all[..i] then FreedIfOrphan(old(rows)[g], tasks) else old(rows)[g]
        invariant released > 0 <==> exists g :: g in rows && old(rows)[g].busy && !rows[g].busy
      {
        var g := all[i];
        if rows[g].busy {
          var t := rows[g].claimant;
          if !(t.Some? && t.value in tasks && tasks[t.value] in {Queued, InProgress}) {
            rows := rows[g := rows[g].(busy := false, claimant := None)];
            released := released + 1;
          }
        }
      }
      assert all[..|all|] == all;
    }

    /** `start_probe`: false when the row is already being probed or holds an uncommitted claim. */
    method StartProbe(g: GpuId) returns (ok: bool)
      requires Valid()
      modifies this`probingGpuIds, this`prober
      ensures Valid() && prober == ProbeStep(old(prober), claimedGpuIds, rows, g, ProbeEvent.StartProbe)
      ensures ok <==> prober != old(prober)
    {
      if g in probingGpuIds || g in claimedGpuIds { return false; }
      probingGpuIds := probingGpuIds + {g};
      prober := prober.(probes := prober.probes[g := Probe(false, Reserved)]);
      return true;
    }

    /** `gpu_in_use` on the row the probe read: whether the probe goes on to the device. */
    method CheckInUse(g: GpuId, row: Option<GpuRow>) returns (goesOn: bool)
      requires Valid() && g in prober.probes && prober.probes[g].phase == Seen(row)
      modifies this`prober
      ensures Valid() && prober == ProbeStep(old(prober), claimedGpuIds, rows, g, ProbeEvent.CheckInUse)
      ensures goesOn <==> prober.probes[g].phase.Running?
    {
      goesOn := row.Some? && row.value.claimant.None? && !row.value.busy && g !in claimedGpuIds;
      prober := prober.(probes := prober.probes[g := prober.probes[g].(phase := if goesOn then Running else Finishing)]);
    }

    /** The end of a probe, however it ends; the boot pass then moves to its next row. */
    method EndProbe(g: GpuId, byBoot: bool)
      requires Valid() && g in probingGpuIds && BootOk(prober) && byBoot == prober.probes[g].byBoot
      modifies this`probingGpuIds, this`pendingProbeGpuIds, this`prober
      ensures Valid() && prober == ProbeStep(old(prober), claimedGpuIds, rows, g, ProbeEvent.EndProbe)
    {
      ghost var p := prober;
      probingGpuIds := probingGpuIds - {g};
      if byBoot {
        pendingProbeGpuIds := pendingProbeGpuIds - {g};
      }
      prober := ProbeStep(p, claimedGpuIds, rows, g, ProbeEvent.EndProbe);
    }

    /** `start_boot_pass`: the flag is up before this returns. */
    method StartBootPass(capable: bool)
      requires Valid() && prober.boot.NotStarted?
      modifies this`bootProbeListing, this`prober
      ensures Valid() && prober == BootStep(old(prober), claimedGpuIds, rows, Start(capable))
    {
      if capable { bootProbeListing := true; }
      prober := BootStep(prober, claimedGpuIds, rows, Start(capable));
    }

    /** The targets are reserved in the step that lowers the flag. */
    method ReserveTargets(targets: seq<GpuId>)
      requires Valid() && prober.boot == Listed(targets)
      modifies this`bootProbeListing, this`pendingProbeGpuIds, this`prober
      ensures Valid() && prober == BootStep(old(prober), claimedGpuIds, rows, Reserve)
    {
      pendingProbeGpuIds := pendingProbeGpuIds + Members(targets);
      bootProbeListing := false;
      prober := BootStep(prober, claimedGpuIds, rows, Reserve);
    }

    /** The boot pass reaches `g`: it starts the probe, or skips a row that is being probed or claimed. */
    method ProbeNext(g: GpuId) returns (started: bool)
      requires Valid() && prober.boot.Passing? && prober.boot.queue != [] && prober.boot.queue[0] == g && !prober.BootProbing()
      modifies this`probingGpuIds, this`pendingProbeGpuIds, this`prober
      ensures Valid() && prober == BootStep(old(prober), claimedGpuIds, rows, Next)
      ensures started <==> prober.BootProbing() && prober.boot.queue[0] == g && old(prober).boot == prober.boot
    {
      started := g !in probingGpuIds && g !in claimedGpuIds;
      if started {
        probingGpuIds := probingGpuIds + {g};
      } else {
        pendingProbeGpuIds := pendingProbeGpuIds - {g};
      }
      prober := BootStep(prober, claimedGpuIds, rows, Next);
    }
  }
}
