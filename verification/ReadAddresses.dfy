/** Where the reads of a batch land in memory: slab tensors laid out slot after slot, staging
    laid out place after place. The jobs of a batch never overlap, so the worker threads may
    carry them out in any interleaving. */
module ReadAddresses {
  import opened Memory
  import opened RemapCalls
  import opened Staging
  import ParallelReads

  /** eb: bytes per expert by role; slabAt: start of each role's slab; stageAt: start of
      staging, whose places are maxb bytes wide. */
  datatype Geometry = Geometry(eb: seq<nat>, slabAt: seq<nat>, stageAt: nat, maxb: nat, size: nat)

  /** Size of a role's slab, the null expert's place included. */
  function SlabBytes(nSlot: nat, eb: nat): nat { (nSlot + 1) * eb }

  function StageBytes(cap: nat, maxb: nat): nat { cap * maxb }

  ghost predicate GeometryOk(g: Geometry, nSlot: nat, cap: nat) {
    && |g.eb| == ROLES && |g.slabAt| == ROLES
    && (forall r :: 0 <= r < ROLES ==> g.eb[r] <= g.maxb && g.slabAt[r] + SlabBytes(nSlot, g.eb[r]) <= g.size)
    && (forall r :: 0 <= r < ROLES ==> Disjoint(g.slabAt[r], SlabBytes(nSlot, g.eb[r]), g.stageAt, StageBytes(cap, g.maxb)))
    && (forall q, r :: 0 <= q < r < ROLES ==>
          Disjoint(g.slabAt[q], SlabBytes(nSlot, g.eb[q]), g.slabAt[r], SlabBytes(nSlot, g.eb[r])))
    && g.stageAt + StageBytes(cap, g.maxb) <= g.size
  }

  ghost predicate BytesFit(f: LayerFile, g: Geometry, n: nat) {
    FileShape(f, n) && |g.eb| == ROLES && forall r, e :: 0 <= r < ROLES && 0 <= e < n ==> |f.bytes[r][e]| == g.eb[r]
  }

  /** Start of a slot in a role's slab. */
  function SlotAt(g: Geometry, r: nat, slot: nat): nat
    requires r < |g.eb| && r < |g.slabAt|
  {
    g.slabAt[r] + slot * g.eb[r]
  }

  function Dst(g: Geometry, j: ReadJob): nat
    requires j.role < |g.eb| && j.role < |g.slabAt|
  {
    if j.direct then SlotAt(g, j.role, j.slot) else g.stageAt + j.si * g.maxb
  }

  lemma DstFits(g: Geometry, j: ReadJob, nSlot: nat, cap: nat)
    requires GeometryOk(g, nSlot, cap) && j.role < ROLES && j.slot <= nSlot && (!j.direct ==> j.si < cap)
    ensures j.direct ==> g.slabAt[j.role] <= Dst(g, j) && Dst(g, j) + g.eb[j.role] <= g.slabAt[j.role] + SlabBytes(nSlot, g.eb[j.role])
    ensures !j.direct ==> g.stageAt <= Dst(g, j) && Dst(g, j) + g.maxb <= g.stageAt + StageBytes(cap, g.maxb)
    ensures Dst(g, j) + g.eb[j.role] <= g.size
  {
    if j.direct { PlaceFits(j.slot, nSlot + 1, g.eb[j.role]); } else { PlaceFits(j.si, cap, g.maxb); }
  }

  /** Two jobs with different targets and different staging places do not overlap. */
  lemma DstDisjoint(g: Geometry, i: ReadJob, j: ReadJob, nSlot: nat, cap: nat)
    requires GeometryOk(g, nSlot, cap)
    requires i.role < ROLES && i.slot <= nSlot && (!i.direct ==> i.si < cap)
    requires j.role < ROLES && j.slot <= nSlot && (!j.direct ==> j.si < cap)
    requires !SameTarget(i, j) && (!i.direct && !j.direct ==> i.si != j.si)
    ensures Disjoint(Dst(g, i), g.eb[i.role], Dst(g, j), g.eb[j.role])
  {
    DstFits(g, i, nSlot, cap);
    DstFits(g, j, nSlot, cap);
    if i.direct && j.direct && i.role == j.role {
      PlacesDisjoint(i.slot, j.slot, g.eb[i.role]);
    } else if !i.direct && !j.direct {
      PlacesDisjoint(i.si, j.si, g.maxb);
    }
  }

  function JobAt(g: Geometry, f: LayerFile, j: ReadJob): ParallelReads.Job
    requires j.role < |g.eb| && j.role < |g.slabAt| && j.role < |f.bytes| && j.e < |f.bytes[j.role]|
  {
    ParallelReads.Job(Dst(g, j), f.bytes[j.role][j.e])
  }

  function JobsAt(g: Geometry, f: LayerFile, jobs: seq<ReadJob>, n: nat): (r: seq<ParallelReads.Job>)
    requires FileShape(f, n) && |g.eb| == ROLES && |g.slabAt| == ROLES
    requires forall k :: 0 <= k < |jobs| ==> jobs[k].role < ROLES && jobs[k].e < n
    ensures |r| == |jobs|
  {
    seq(|jobs|, k requires 0 <= k < |jobs| => JobAt(g, f, jobs[k]))
  }

  /** The jobs of a batch are in bounds and pairwise disjoint. */
  lemma BatchDisjoint(g: Geometry, f: LayerFile, jobs: seq<ReadJob>, n: nat, nSlot: nat, cap: nat)
    requires GeometryOk(g, nSlot, cap) && BytesFit(f, g, n) && JobsFit(jobs, cap, n, nSlot)
    ensures ParallelReads.JobsOk(JobsAt(g, f, jobs, n), g.size)
  {
    var at := JobsAt(g, f, jobs, n);
    forall k | 0 <= k < |jobs| ensures at[k].dst + |at[k].src| <= g.size {
      DstFits(g, jobs[k], nSlot, cap);
    }
    forall j, k | 0 <= j < k < |jobs| ensures ParallelReadsDisjoint(at[j], at[k]) {
      DstDisjoint(g, jobs[j], jobs[k], nSlot, cap);
    }
  }

  predicate ParallelReadsDisjoint(a: ParallelReads.Job, b: ParallelReads.Job) {
    Disjoint(a.dst, |a.src|, b.dst, |b.src|)
  }

  /** Block b is in memory at `at`. */
  predicate Holds(mem: Block, at: nat, b: Block) {
    at + |b| <= |mem| && Window(mem, at, |b|) == b
  }

  /** The n bytes at `at` are the same in both memories. */
  predicate SameAt(a: Block, b: Block, at: nat, n: nat) {
    at + n <= |a| && at + n <= |b| && Window(a, at, n) == Window(b, at, n)
  }

  /** Whatever the interleaving of the reading threads, once they are joined every job's
      bytes are at its address, and a slot no job reads into is untouched. */
  lemma ThreadsDeliver(run: seq<ParallelReads.Pool>, evs: seq<ParallelReads.Event>, mem0: Block,
                       g: Geometry, f: LayerFile, jobs: seq<ReadJob>, n: nat, nSlot: nat, cap: nat)
    requires GeometryOk(g, nSlot, cap) && BytesFit(f, g, n) && JobsFit(jobs, cap, n, nSlot) && |mem0| == g.size
    requires ParallelReads.IsRun(run, evs, JobsAt(g, f, jobs, n))
    requires ParallelReads.Init(run[0], mem0, JobsAt(g, f, jobs, n)) && ParallelReads.AllFinished(run[|run| - 1])
    ensures var mem := run[|run| - 1].mem;
      && |mem| == g.size
      && (forall k :: 0 <= k < |jobs| ==> Holds(mem, Dst(g, jobs[k]), f.bytes[jobs[k].role][jobs[k].e]))
      && (forall r, x :: 0 <= r < ROLES && 0 <= x <= nSlot && !Targets(jobs, r, x) ==> SameAt(mem, mem0, SlotAt(g, r, x), g.eb[r]))
    ensures run[|run| - 1].log == seq(|jobs|, k => k)
  {
    var at := JobsAt(g, f, jobs, n);
    BatchDisjoint(g, f, jobs, n, nSlot, cap);
    ParallelReads.JoinedIsSequential(run, evs, mem0, at);
    forall k | 0 <= k < |jobs|
      ensures Holds(ParallelReads.Sequential(mem0, at), Dst(g, jobs[k]), f.bytes[jobs[k].role][jobs[k].e])
    {
      DstFits(g, jobs[k], nSlot, cap);
      ParallelReads.SequentialDelivers(mem0, at, k);
      assert at[k] == JobAt(g, f, jobs[k]);
    }
    forall r, x | 0 <= r < ROLES && 0 <= x <= nSlot && !Targets(jobs, r, x)
      ensures SameAt(ParallelReads.Sequential(mem0, at), mem0, SlotAt(g, r, x), g.eb[r])
    {
      SlotUntouched(mem0, g, f, jobs, n, nSlot, cap, r, x);
    }
  }

  lemma SlotUntouched(mem0: Block, g: Geometry, f: LayerFile, jobs: seq<ReadJob>, n: nat, nSlot: nat, cap: nat, r: nat, x: nat)
    requires GeometryOk(g, nSlot, cap) && BytesFit(f, g, n) && JobsFit(jobs, cap, n, nSlot) && |mem0| == g.size
    requires r < ROLES && x <= nSlot && !Targets(jobs, r, x)
    requires ParallelReads.JobsOk(JobsAt(g, f, jobs, n), g.size)
    ensures SameAt(ParallelReads.Sequential(mem0, JobsAt(g, f, jobs, n)), mem0, SlotAt(g, r, x), g.eb[r])
  {
    var at := JobsAt(g, f, jobs, n);
    var probe := ReadJob(r, 0, x, true, 0);
    DstFits(g, probe, nSlot, cap);
    forall k | 0 <= k < |at| ensures Disjoint(at[k].dst, |at[k].src|, SlotAt(g, r, x), g.eb[r]) {
      assert !SameTarget(jobs[k], probe);
      DstDisjoint(g, jobs[k], probe, nSlot, cap);
      assert at[k] == JobAt(g, f, jobs[k]);
    }
    ParallelReads.SequentialLeaves(mem0, at, SlotAt(g, r, x), g.eb[r]);
  }
}
