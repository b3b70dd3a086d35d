/** The misses of a call in byte memory: whatever the interleaving of the reading threads in
    each batch, once the last batch has been uploaded the slabs hold what the block-level
    model says, and gathering by slot id from memory gives the file's bytes. */
module MissDelivery {
  import opened Memory
  import opened CacheModel
  import opened RemapModel
  import opened RemapCalls
  import opened Staging
  import opened ReadAddresses
  import ParallelReads

  /** Memory holds the slabs, the null expert's places included. */
  ghost predicate Represents(mem: Block, g: Geometry, slab: seq<seq<Block>>, nSlot: nat) {
    && |mem| == g.size && |g.eb| == ROLES && |g.slabAt| == ROLES && SlabShape(slab, nSlot)
    && forall r, x :: 0 <= r < ROLES && 0 <= x <= nSlot ==> HoldsSlot(mem, g, r, x, slab[r][x])
  }

  predicate HoldsSlot(mem: Block, g: Geometry, r: nat, x: nat, b: Block)
    requires r < |g.eb| && r < |g.slabAt|
  {
    |b| == g.eb[r] && Holds(mem, SlotAt(g, r, x), b)
  }

  // ---------------------------------------------------------------------------
  // Uploads
  // ---------------------------------------------------------------------------

  /** Copy a staged block to its slot; a direct read is there already. */
  function UploadJob(mem: Block, g: Geometry, j: ReadJob): (m: Block)
    requires j.role < |g.eb| && j.role < |g.slabAt|
    requires Dst(g, j) + g.eb[j.role] <= |mem| && SlotAt(g, j.role, j.slot) + g.eb[j.role] <= |mem|
    ensures |m| == |mem|
  {
    if j.direct then mem else Blit(mem, SlotAt(g, j.role, j.slot), Window(mem, Dst(g, j), g.eb[j.role]))
  }

  lemma {:induction false} JobInMemory(g: Geometry, jobs: seq<ReadJob>, k: nat, n: nat, nSlot: nat)
    requires GeometryOk(g, nSlot, STAGE_PLACES) && JobsFit(jobs, STAGE_PLACES, n, nSlot) && k < |jobs|
    ensures Dst(g, jobs[k]) + g.eb[jobs[k].role] <= g.size
    ensures SlotAt(g, jobs[k].role, jobs[k].slot) + g.eb[jobs[k].role] <= g.size
  {
    DstFits(g, jobs[k], nSlot, STAGE_PLACES);
    DstFits(g, jobs[k].(direct := true), nSlot, STAGE_PLACES);
  }

  /** The uploads of the first k jobs, in order. */
  ghost function Uploads(mem: Block, g: Geometry, jobs: seq<ReadJob>, k: nat, n: nat, nSlot: nat): (m: Block)
    requires GeometryOk(g, nSlot, STAGE_PLACES) && JobsFit(jobs, STAGE_PLACES, n, nSlot) && k <= |jobs| && |mem| == g.size
    ensures |m| == g.size
  {
    if k == 0 then mem
    else
      JobInMemory(g, jobs, k - 1, n, nSlot);
      UploadJob(Uploads(mem, g, jobs, k - 1, n, nSlot), g, jobs[k - 1])
  }

  /** Job j's bytes are where it read them to, or in its slot once it is uploaded. */
  ghost predicate Placed(mem: Block, g: Geometry, f: LayerFile, jobs: seq<ReadJob>, i: nat, k: nat, n: nat)
    requires BytesFit(f, g, n) && |g.slabAt| == ROLES && i < |jobs| && jobs[i].role < ROLES && jobs[i].e < n
  {
    var b := f.bytes[jobs[i].role][jobs[i].e];
    if i < k || jobs[i].direct then Holds(mem, SlotAt(g, jobs[i].role, jobs[i].slot), b) else Holds(mem, Dst(g, jobs[i]), b)
  }

  /** The k-th upload writes its slot and leaves every disjoint place alone. */
  lemma {:induction false} UploadEffect(mem: Block, g: Geometry, jobs: seq<ReadJob>, k: nat, n: nat, nSlot: nat)
    requires GeometryOk(g, nSlot, STAGE_PLACES) && JobsFit(jobs, STAGE_PLACES, n, nSlot) && k < |jobs| && |mem| == g.size
    ensures var m, t := Uploads(mem, g, jobs, k, n, nSlot), Uploads(mem, g, jobs, k + 1, n, nSlot);
      var at, eb := SlotAt(g, jobs[k].role, jobs[k].slot), g.eb[jobs[k].role];
      && Dst(g, jobs[k]) + eb <= g.size && at + eb <= g.size
      && Window(t, at, eb) == Window(m, Dst(g, jobs[k]), eb)
      && forall lo: nat, len: nat :: lo + len <= g.size && Disjoint(at, eb, lo, len) ==> Window(t, lo, len) == Window(m, lo, len)
  {
    JobInMemory(g, jobs, k, n, nSlot);
    var m := Uploads(mem, g, jobs, k, n, nSlot);
    var j := jobs[k];
    BlitWindow(m, SlotAt(g, j.role, j.slot), Window(m, Dst(g, j), g.eb[j.role]));
  }

  /** Where job i's bytes are before upload k is not the slot upload k writes. */
  lemma {:induction false} PlaceKept(g: Geometry, jobs: seq<ReadJob>, i: nat, k: nat, n: nat, nSlot: nat)
    requires GeometryOk(g, nSlot, STAGE_PLACES) && JobsFit(jobs, STAGE_PLACES, n, nSlot) && i < |jobs| && k < |jobs| && i != k
    ensures Disjoint(SlotAt(g, jobs[k].role, jobs[k].slot), g.eb[jobs[k].role], Dst(g, jobs[i]), g.eb[jobs[i].role])
    ensures Disjoint(SlotAt(g, jobs[k].role, jobs[k].slot), g.eb[jobs[k].role],
                     SlotAt(g, jobs[i].role, jobs[i].slot), g.eb[jobs[i].role])
  {
    var to := jobs[k].(direct := true);
    assert !SameTarget(jobs[i], jobs[k]) by {
      if i < k { assert !SameTarget(jobs[i], jobs[k]); } else { assert !SameTarget(jobs[k], jobs[i]); }
    }
    DstDisjoint(g, to, jobs[i], nSlot, STAGE_PLACES);
    DstDisjoint(g, to, jobs[i].(direct := true), nSlot, STAGE_PLACES);
  }

  lemma {:induction false} UploadOwn(mem: Block, g: Geometry, f: LayerFile, jobs: seq<ReadJob>, k: nat, n: nat, nSlot: nat)
    requires GeometryOk(g, nSlot, STAGE_PLACES) && BytesFit(f, g, n) && JobsFit(jobs, STAGE_PLACES, n, nSlot) && |mem| == g.size
    requires k < |jobs| && Placed(Uploads(mem, g, jobs, k, n, nSlot), g, f, jobs, k, k, n)
    ensures Placed(Uploads(mem, g, jobs, k + 1, n, nSlot), g, f, jobs, k, k + 1, n)
  {
    UploadEffect(mem, g, jobs, k, n, nSlot);
  }

  lemma {:induction false} UploadOther(mem: Block, g: Geometry, f: LayerFile, jobs: seq<ReadJob>, k: nat, n: nat, nSlot: nat, i: nat)
    requires GeometryOk(g, nSlot, STAGE_PLACES) && BytesFit(f, g, n) && JobsFit(jobs, STAGE_PLACES, n, nSlot) && |mem| == g.size
    requires k < |jobs| && i < |jobs| && i != k && Placed(Uploads(mem, g, jobs, k, n, nSlot), g, f, jobs, i, k, n)
    ensures Placed(Uploads(mem, g, jobs, k + 1, n, nSlot), g, f, jobs, i, k + 1, n)
  {
    UploadEffect(mem, g, jobs, k, n, nSlot);
    JobInMemory(g, jobs, i, n, nSlot);
    PlaceKept(g, jobs, i, k, n, nSlot);
  }

  lemma {:induction false} UploadPlaces(mem: Block, g: Geometry, f: LayerFile, jobs: seq<ReadJob>, k: nat, n: nat, nSlot: nat, i: nat)
    requires GeometryOk(g, nSlot, STAGE_PLACES) && BytesFit(f, g, n) && JobsFit(jobs, STAGE_PLACES, n, nSlot) && |mem| == g.size
    requires k <= |jobs| && i < |jobs| && Placed(mem, g, f, jobs, i, 0, n)
    ensures Placed(Uploads(mem, g, jobs, k, n, nSlot), g, f, jobs, i, k, n)
  {
    if k > 0 {
      UploadPlaces(mem, g, f, jobs, k - 1, n, nSlot, i);
      if i == k - 1 {
        UploadOwn(mem, g, f, jobs, k - 1, n, nSlot);
      } else {
        UploadOther(mem, g, f, jobs, k - 1, n, nSlot, i);
      }
    }
  }

  /** A slot no job is for keeps its bytes. */
  lemma {:induction false} UploadLeaves(mem: Block, g: Geometry, jobs: seq<ReadJob>, k: nat, n: nat, nSlot: nat, r: nat, x: nat)
    requires GeometryOk(g, nSlot, STAGE_PLACES) && JobsFit(jobs, STAGE_PLACES, n, nSlot) && |mem| == g.size
    requires k <= |jobs| && r < ROLES && x <= nSlot && !Targets(jobs, r, x)
    ensures SameAt(Uploads(mem, g, jobs, k, n, nSlot), mem, SlotAt(g, r, x), g.eb[r])
  {
    var probe := ReadJob(r, 0, x, true, 0);
    DstFits(g, probe, nSlot, STAGE_PLACES);
    if k > 0 {
      UploadLeaves(mem, g, jobs, k - 1, n, nSlot, r, x);
      UploadEffect(mem, g, jobs, k - 1, n, nSlot);
      assert !SameTarget(jobs[k - 1], probe);
      DstDisjoint(g, jobs[k - 1].(direct := true), probe, nSlot, STAGE_PLACES);
    }
  }

  // ---------------------------------------------------------------------------
  // One batch
  // ---------------------------------------------------------------------------

  /** A run of the reading threads of one batch, until they are joined. */
  datatype Threads = Threads(run: seq<ParallelReads.Pool>, evs: seq<ParallelReads.Event>)

  ghost predicate Joined(t: Threads, mem: Block, jobs: seq<ParallelReads.Job>) {
    && ParallelReads.IsRun(t.run, t.evs, jobs) && ParallelReads.Init(t.run[0], mem, jobs)
    && ParallelReads.AllFinished(t.run[|t.run| - 1])
  }

  /** Memory after a batch: the threads' reads, then the uploads. */
  ghost function AfterBatch(t: Threads, g: Geometry, p: Plan, n: nat, nSlot: nat): (m: Block)
    requires GeometryOk(g, nSlot, STAGE_PLACES) && PlanOk(p, n, nSlot)
    requires |t.run| > 0 && |t.run[|t.run| - 1].mem| == g.size
    ensures |m| == g.size
  {
    Uploads(t.run[|t.run| - 1].mem, g, p.jobs, |p.jobs|, n, nSlot)
  }

  ghost predicate Setting(g: Geometry, f: LayerFile, n: nat, nSlot: nat) {
    GeometryOk(g, nSlot, STAGE_PLACES) && BytesFit(f, g, n)
  }

  /** Every miss of the batch is in its slot, every other slot as it was. */
  lemma {:induction false} BatchPlaces(mem: Block, t: Threads, g: Geometry, f: LayerFile, p: Plan, n: nat, nSlot: nat)
    requires Setting(g, f, n, nSlot) && PlanOk(p, n, nSlot) && |mem| == g.size
    requires Joined(t, mem, JobsAt(g, f, p.jobs, n))
    ensures |t.run| > 0 && |t.run[|t.run| - 1].mem| == g.size
    ensures forall k :: 0 <= k < |p.jobs| ==>
      Holds(AfterBatch(t, g, p, n, nSlot), SlotAt(g, p.jobs[k].role, p.jobs[k].slot), f.bytes[p.jobs[k].role][p.jobs[k].e])
    ensures forall r, x :: 0 <= r < ROLES && 0 <= x <= nSlot && !Targets(p.jobs, r, x) ==>
      SameAt(AfterBatch(t, g, p, n, nSlot), mem, SlotAt(g, r, x), g.eb[r])
  {
    ThreadsDeliver(t.run, t.evs, mem, g, f, p.jobs, n, nSlot, STAGE_PLACES);
    var mid := t.run[|t.run| - 1].mem;
    forall k | 0 <= k < |p.jobs|
      ensures Holds(AfterBatch(t, g, p, n, nSlot), SlotAt(g, p.jobs[k].role, p.jobs[k].slot), f.bytes[p.jobs[k].role][p.jobs[k].e])
    {
      assert Holds(mid, Dst(g, p.jobs[k]), f.bytes[p.jobs[k].role][p.jobs[k].e]);
      UploadPlaces(mid, g, f, p.jobs, |p.jobs|, n, nSlot, k);
    }
    forall r, x | 0 <= r < ROLES && 0 <= x <= nSlot && !Targets(p.jobs, r, x)
      ensures SameAt(AfterBatch(t, g, p, n, nSlot), mem, SlotAt(g, r, x), g.eb[r])
    {
      assert SameAt(mid, mem, SlotAt(g, r, x), g.eb[r]);
      UploadLeaves(mid, g, p.jobs, |p.jobs|, n, nSlot, r, x);
    }
  }

  /** Any interleaving of a batch's threads, followed by its uploads, loads its misses. */
  lemma {:induction false} BatchDelivers(mem: Block, t: Threads, g: Geometry, f: LayerFile, p: Plan,
                                         slab: seq<seq<Block>>, n: nat, nSlot: nat)
    requires Setting(g, f, n, nSlot) && PlanOk(p, n, nSlot) && Represents(mem, g, slab, nSlot)
    requires Joined(t, mem, JobsAt(g, f, p.jobs, n))
    ensures |t.run| > 0 && |t.run[|t.run| - 1].mem| == g.size
    ensures Represents(AfterBatch(t, g, p, n, nSlot), g, Loaded(slab, p.pend, f, n, nSlot), nSlot)
  {
    BatchPlaces(mem, t, g, f, p, n, nSlot);
    var want := Loaded(slab, p.pend, f, n, nSlot);
    LoadedAt(slab, p.pend, f, n, nSlot);
    forall r, x | 0 <= r < ROLES && 0 <= x <= nSlot ensures HoldsSlot(AfterBatch(t, g, p, n, nSlot), g, r, x, want[r][x]) {
      assert HoldsSlot(mem, g, r, x, slab[r][x]);
      if i :| 0 <= i < |p.pend| && p.pend[i].slot == x {
        assert HasJob(p.jobs, r, p.pend[i].e, p.pend[i].slot);
        assert want[r][p.pend[i].slot] == f.bytes[r][p.pend[i].e];
      } else {
        assert !Targets(p.jobs, r, x);
      }
    }
  }

  // ---------------------------------------------------------------------------
  // All batches
  // ---------------------------------------------------------------------------

  /** Memory before the first batch and after each of them. */
  ghost predicate Delivery(mems: seq<Block>, ts: seq<Threads>, g: Geometry, f: LayerFile, plans: seq<Plan>, n: nat, nSlot: nat)
    requires Setting(g, f, n, nSlot) && PlansOk(plans, n, nSlot)
  {
    && |mems| == |plans| + 1 && |ts| == |plans|
    && forall k :: 0 <= k < |plans| ==> Delivered(mems[k], ts[k], mems[k + 1], g, f, plans[k], n, nSlot)
  }

  /** One batch: threads, then uploads. */
  ghost predicate Delivered(mem: Block, t: Threads, next: Block, g: Geometry, f: LayerFile, p: Plan, n: nat, nSlot: nat)
    requires Setting(g, f, n, nSlot) && PlanOk(p, n, nSlot)
  {
    && Joined(t, mem, JobsAt(g, f, p.jobs, n))
    && |t.run[|t.run| - 1].mem| == g.size && next == AfterBatch(t, g, p, n, nSlot)
  }

  lemma {:induction false} DeliveryPrefix(mems: seq<Block>, ts: seq<Threads>, g: Geometry, f: LayerFile, plans: seq<Plan>, n: nat, nSlot: nat)
    requires Setting(g, f, n, nSlot) && PlansOk(plans, n, nSlot) && Delivery(mems, ts, g, f, plans, n, nSlot) && |plans| > 0
    ensures var k := |plans| - 1;
      && PlansOk(plans[..k], n, nSlot) && Delivery(mems[..k + 1], ts[..k], g, f, plans[..k], n, nSlot)
      && PlanOk(plans[k], n, nSlot) && Delivered(mems[k], ts[k], mems[k + 1], g, f, plans[k], n, nSlot)
  {
    var k := |plans| - 1;
    forall q | 0 <= q < k
      ensures PlanOk(plans[..k][q], n, nSlot) && Delivered(mems[..k + 1][q], ts[..k][q], mems[..k + 1][q + 1], g, f, plans[..k][q], n, nSlot)
    {
      assert PlanOk(plans[q], n, nSlot) && Delivered(mems[q], ts[q], mems[q + 1], g, f, plans[q], n, nSlot);
    }
  }

  /** However the threads of each batch interleave, all batches together load all misses. */
  lemma {:induction false} AllDelivered(mems: seq<Block>, ts: seq<Threads>, g: Geometry, f: LayerFile, plans: seq<Plan>,
                                        slab: seq<seq<Block>>, n: nat, nSlot: nat)
    requires Setting(g, f, n, nSlot) && PlansOk(plans, n, nSlot) && Delivery(mems, ts, g, f, plans, n, nSlot)
    requires Represents(mems[0], g, slab, nSlot)
    ensures PendIn(Parts(plans), n, nSlot)
    ensures Represents(mems[|plans|], g, Loaded(slab, Parts(plans), f, n, nSlot), nSlot)
  {
    if |plans| > 0 {
      var k := |plans| - 1;
      DeliveryPrefix(mems, ts, g, f, plans, n, nSlot);
      AllDelivered(mems[..k + 1], ts[..k], g, f, plans[..k], slab, n, nSlot);
      LoadedAppend(slab, Parts(plans[..k]), plans[k].pend, f, n, nSlot);
      BatchDelivers(mems[k], ts[k], g, f, plans[k], Loaded(slab, Parts(plans[..k]), f, n, nSlot), n, nSlot);
    }
  }

  // ---------------------------------------------------------------------------
  // One call
  // ---------------------------------------------------------------------------

  /** A call's batches, as planned, and their deliveries. */
  ghost predicate Fetches(mems: seq<Block>, ts: seq<Threads>, plans: seq<Plan>, g: Geometry, rt: LayerRt, f: LayerFile,
                          call: Call, nbytes: nat)
    requires RtShape(rt, f)
  {
    && Setting(g, f, rt.c.nExpert, rt.c.nSlot) && PlansOk(plans, rt.c.nExpert, rt.c.nSlot)
    && Parts(plans) == Serve(rt, f, call, nbytes).pend
    && Delivery(mems, ts, g, f, plans, rt.c.nExpert, rt.c.nSlot) && Represents(mems[0], g, rt.slab, rt.c.nSlot)
  }

  /** From memory that holds the slabs of a state, a call leads to memory that holds the slabs
      of the state after it. */
  lemma {:induction false} CallDelivers(mems: seq<Block>, ts: seq<Threads>, plans: seq<Plan>, g: Geometry, rt: LayerRt, f: LayerFile,
                                        call: Call, nbytes: nat)
    requires RtShape(rt, f) && call.pass < PASSES && Fetches(mems, ts, plans, g, rt, f, call, nbytes)
    ensures Represents(mems[|plans|], g, After(rt, f, call, nbytes).slab, rt.c.nSlot)
  {
    AllDelivered(mems, ts, g, f, plans, rt.slab, rt.c.nExpert, rt.c.nSlot);
  }

  /** The bytes the multiplication finds at the rewritten id: the file's bytes of the original
      id if this pass owns it, the null expert's zeros otherwise. */
  lemma {:induction false} CallGathersBytes(mems: seq<Block>, ts: seq<Threads>, plans: seq<Plan>, g: Geometry, rt: LayerRt,
                                            f: LayerFile, call: Call, nbytes: nat, i: nat, r: nat)
    requires RtInv(rt, f) && CallSafe(call, rt.c.nExpert, rt.c.nSlot) && call.pass < PASSES && i < |call.ids| && r < ROLES
    requires |Wanted(call.ids, OwnOf(call, rt.c.nExpert))| <= rt.c.nSlot
    requires Fetches(mems, ts, plans, g, rt, f, call, nbytes)
    ensures var out := Serve(rt, f, call, nbytes).out;
      && |out| == |call.ids| && |g.eb| == |g.slabAt| == ROLES
      && Holds(mems[|plans|], SlotAt(g, r, out[i]),
               if Owned(call.ids[i], OwnOf(call, rt.c.nExpert)) then f.bytes[r][call.ids[i]] else f.zeros[r])
  {
    CallDelivers(mems, ts, plans, g, rt, f, call, nbytes);
    RemapExact(rt, f, call, nbytes, i, r);
    var t := After(rt, f, call, nbytes);
    assert HoldsSlot(mems[|plans|], g, r, Serve(rt, f, call, nbytes).out[i], t.slab[r][Serve(rt, f, call, nbytes).out[i]]);
  }
}
