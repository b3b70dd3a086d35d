/** Reading the misses of a batch: straight into the slab where the device memory is
    visible, through a bounded staging buffer elsewhere, in as many batches as that takes. */
module Staging {
  import opened Seqs
  import opened Memory
  import opened RemapModel
  import opened RemapCalls

  /** One read: an expert's bytes in one role, for a slot; directly, or through staging
      place si. */
  datatype ReadJob = ReadJob(role: nat, e: nat, slot: nat, direct: bool, si: nat)

  /** Which (role, slot) the host can write directly. */
  type HostMap = (nat, nat) -> bool

  /** g_stage holds 3 * 32 places once it is allocated. */
  const STAGE_PLACES: nat := 96

  function StageNeed(host: HostMap, slot: nat): (n: nat)
    ensures n <= 3
  {
    (if host(0, slot) then 0 else 1) + (if host(1, slot) then 0 else 1) + (if host(2, slot) then 0 else 1)
  }

  predicate SameTarget(a: ReadJob, b: ReadJob) { a.role == b.role && a.slot == b.slot }

  /** Jobs in range, with different targets and different staging places. */
  ghost predicate JobsFit(jobs: seq<ReadJob>, cap: nat, n: nat, nSlot: nat) {
    && (forall k :: 0 <= k < |jobs| ==>
          jobs[k].role < ROLES && jobs[k].e < n && jobs[k].slot < nSlot && (!jobs[k].direct ==> jobs[k].si < cap))
    && (forall j, k :: 0 <= j < k < |jobs| ==> !SameTarget(jobs[j], jobs[k]))
    && (forall j, k :: 0 <= j < k < |jobs| && !jobs[j].direct && !jobs[k].direct ==> jobs[j].si != jobs[k].si)
  }

  /** The jobs are the three roles of each of these misses, and nothing else. */
  ghost predicate JobsFor(jobs: seq<ReadJob>, pend: seq<Pend>) {
    && (forall k :: 0 <= k < |jobs| ==> Pend(jobs[k].e, jobs[k].slot) in pend)
    && (forall i, r :: 0 <= i < |pend| && 0 <= r < ROLES ==> HasJob(jobs, r, pend[i].e, pend[i].slot))
  }

  ghost predicate HasJob(jobs: seq<ReadJob>, r: nat, e: nat, slot: nat) {
    exists k :: 0 <= k < |jobs| && jobs[k].role == r && jobs[k].e == e && jobs[k].slot == slot
  }

  ghost predicate Targets(jobs: seq<ReadJob>, r: nat, x: nat) {
    exists k :: 0 <= k < |jobs| && jobs[k].role == r && jobs[k].slot == x
  }

  // ---------------------------------------------------------------------------
  // Carrying out one batch
  // ---------------------------------------------------------------------------

  /** The first k reads are done: direct ones into the slab, the others into staging; slots no
      job reads into are as they were. */
  ghost predicate ReadTo(jobs: seq<ReadJob>, k: nat, slab0: seq<seq<Block>>, slab: seq<seq<Block>>, stage: seq<Block>,
                         f: LayerFile, n: nat, nSlot: nat)
    requires SlabShape(slab0, nSlot) && FileShape(f, n) && JobsFit(jobs, |stage|, n, nSlot)
  {
    && k <= |jobs| && SlabShape(slab, nSlot)
    && (forall i :: 0 <= i < k && jobs[i].direct ==> slab[jobs[i].role][jobs[i].slot] == f.bytes[jobs[i].role][jobs[i].e])
    && (forall i :: 0 <= i < k && !jobs[i].direct ==> stage[jobs[i].si] == f.bytes[jobs[i].role][jobs[i].e])
    && (forall r, x :: 0 <= r < ROLES && 0 <= x <= nSlot && !Targets(jobs, r, x) ==> slab[r][x] == slab0[r][x])
  }

  lemma {:induction false} ReadDirect(jobs: seq<ReadJob>, k: nat, slab0: seq<seq<Block>>, slab: seq<seq<Block>>,
                                      stage: seq<Block>, f: LayerFile, n: nat, nSlot: nat)
    requires SlabShape(slab0, nSlot) && FileShape(f, n) && JobsFit(jobs, |stage|, n, nSlot)
    requires k < |jobs| && ReadTo(jobs, k, slab0, slab, stage, f, n, nSlot) && jobs[k].direct
    ensures var j := jobs[k];
      ReadTo(jobs, k + 1, slab0, slab[j.role := slab[j.role][j.slot := f.bytes[j.role][j.e]]], stage, f, n, nSlot)
  {
    assert forall i :: 0 <= i < k ==> !SameTarget(jobs[i], jobs[k]);
    assert Targets(jobs, jobs[k].role, jobs[k].slot);
  }

  lemma {:induction false} ReadStaged(jobs: seq<ReadJob>, k: nat, slab0: seq<seq<Block>>, slab: seq<seq<Block>>,
                                      stage: seq<Block>, f: LayerFile, n: nat, nSlot: nat)
    requires SlabShape(slab0, nSlot) && FileShape(f, n) && JobsFit(jobs, |stage|, n, nSlot)
    requires k < |jobs| && ReadTo(jobs, k, slab0, slab, stage, f, n, nSlot) && !jobs[k].direct
    ensures var j := jobs[k];
      ReadTo(jobs, k + 1, slab0, slab, stage[j.si := f.bytes[j.role][j.e]], f, n, nSlot)
  {
  }

  /** The reads of a batch, one after the other: direct ones land in the slab, the others in
      staging. */
  method RunReads(jobs: seq<ReadJob>, slab0: seq<seq<Block>>, stage0: seq<Block>, f: LayerFile, n: nat, nSlot: nat)
    returns (slab: seq<seq<Block>>, stage: seq<Block>)
    requires SlabShape(slab0, nSlot) && FileShape(f, n) && JobsFit(jobs, |stage0|, n, nSlot)
    ensures SlabShape(slab, nSlot) && |stage| == |stage0|
    ensures forall k :: 0 <= k < |jobs| && jobs[k].direct ==> slab[jobs[k].role][jobs[k].slot] == f.bytes[jobs[k].role][jobs[k].e]
    ensures forall k :: 0 <= k < |jobs| && !jobs[k].direct ==> stage[jobs[k].si] == f.bytes[jobs[k].role][jobs[k].e]
    ensures forall r, x :: 0 <= r < ROLES && 0 <= x <= nSlot && !Targets(jobs, r, x) ==> slab[r][x] == slab0[r][x]
  {
    slab, stage := slab0, stage0;
    var k := 0;
    while k < |jobs|
      invariant |stage| == |stage0| && 0 <= k && ReadTo(jobs, k, slab0, slab, stage, f, n, nSlot)
    {
      var j := jobs[k];
      if j.direct {
        ReadDirect(jobs, k, slab0, slab, stage, f, n, nSlot);
        slab := slab[j.role := slab[j.role][j.slot := f.bytes[j.role][j.e]]];
      } else {
        ReadStaged(jobs, k, slab0, slab, stage, f, n, nSlot);
        stage := stage[j.si := f.bytes[j.role][j.e]];
      }
      k := k + 1;
    }
  }

  /** The uploads of a batch: what was staged goes to its slot. */
  method Upload(jobs: seq<ReadJob>, slab0: seq<seq<Block>>, stage: seq<Block>, f: LayerFile, n: nat, nSlot: nat)
    returns (slab: seq<seq<Block>>)
    requires SlabShape(slab0, nSlot) && FileShape(f, n) && JobsFit(jobs, |stage|, n, nSlot)
    requires forall k :: 0 <= k < |jobs| && jobs[k].direct ==> slab0[jobs[k].role][jobs[k].slot] == f.bytes[jobs[k].role][jobs[k].e]
    requires forall k :: 0 <= k < |jobs| && !jobs[k].direct ==> stage[jobs[k].si] == f.bytes[jobs[k].role][jobs[k].e]
    ensures SlabShape(slab, nSlot)
    ensures forall k :: 0 <= k < |jobs| ==> slab[jobs[k].role][jobs[k].slot] == f.bytes[jobs[k].role][jobs[k].e]
    ensures forall r, x :: 0 <= r < ROLES && 0 <= x <= nSlot && !Targets(jobs, r, x) ==> slab[r][x] == slab0[r][x]
  {
    slab := slab0;
    var k := 0;
    while k < |jobs|
      invariant 0 <= k <= |jobs| && SlabShape(slab, nSlot)
      invariant forall i :: 0 <= i < |jobs| && (i < k || jobs[i].direct) ==>
        slab[jobs[i].role][jobs[i].slot] == f.bytes[jobs[i].role][jobs[i].e]
      invariant forall r, x :: 0 <= r < ROLES && 0 <= x <= nSlot && !Targets(jobs, r, x) ==> slab[r][x] == slab0[r][x]
    {
      var j := jobs[k];
      assert Targets(jobs, j.role, j.slot);
      if !j.direct {
        assert forall i :: 0 <= i < |jobs| && i != k ==> !SameTarget(jobs[i], j) && !SameTarget(j, jobs[i]);
        slab := slab[j.role := slab[j.role][j.slot := stage[j.si]]];
      }
      k := k + 1;
    }
  }

  /** A batch carried out is its misses loaded. */
  lemma BatchLoads(jobs: seq<ReadJob>, pend: seq<Pend>, slab0: seq<seq<Block>>, slab: seq<seq<Block>>, f: LayerFile, n: nat, nSlot: nat)
    requires SlabShape(slab0, nSlot) && SlabShape(slab, nSlot) && FileShape(f, n)
    requires PendIn(pend, n, nSlot) && DistinctSlots(pend) && JobsFor(jobs, pend)
    requires forall k :: 0 <= k < |jobs| ==> jobs[k].role < ROLES && jobs[k].e < n && jobs[k].slot < nSlot
    requires forall k :: 0 <= k < |jobs| ==> slab[jobs[k].role][jobs[k].slot] == f.bytes[jobs[k].role][jobs[k].e]
    requires forall r, x :: 0 <= r < ROLES && 0 <= x <= nSlot && !Targets(jobs, r, x) ==> slab[r][x] == slab0[r][x]
    ensures slab == Loaded(slab0, pend, f, n, nSlot)
  {
    var want := Loaded(slab0, pend, f, n, nSlot);
    LoadedAt(slab0, pend, f, n, nSlot);
    forall r, x | 0 <= r < ROLES && 0 <= x <= nSlot ensures slab[r][x] == want[r][x] {
      if i :| 0 <= i < |pend| && pend[i].slot == x {
        assert HasJob(jobs, r, pend[i].e, pend[i].slot);
        assert want[r][pend[i].slot] == f.bytes[r][pend[i].e];
      } else {
        assert !Targets(jobs, r, x);
      }
    }
    assert forall r :: 0 <= r < ROLES ==> slab[r] == want[r];
  }

  lemma {:induction false} LoadedAppend(slab: seq<seq<Block>>, a: seq<Pend>, b: seq<Pend>, f: LayerFile, n: nat, nSlot: nat)
    requires SlabShape(slab, nSlot) && FileShape(f, n) && PendIn(a, n, nSlot) && PendIn(b, n, nSlot)
    ensures PendIn(a + b, n, nSlot)
    ensures Loaded(slab, a + b, f, n, nSlot) == Loaded(Loaded(slab, a, f, n, nSlot), b, f, n, nSlot)
  {
    if |b| == 0 {
      assert a + b == a;
    } else {
      var k := |b| - 1;
      assert (a + b)[..|a + b| - 1] == a + b[..k];
      LoadedAppend(slab, a, b[..k], f, n, nSlot);
    }
  }

  // ---------------------------------------------------------------------------
  // Planning the batches
  // ---------------------------------------------------------------------------

  /** What a job reads: role, expert, slot. */
  datatype Read = Read(role: nat, e: nat, slot: nat)

  function ReadsOf(jobs: seq<ReadJob>): (r: seq<Read>)
    ensures |r| == |jobs|
  {
    seq(|jobs|, k requires 0 <= k < |jobs| => Read(jobs[k].role, jobs[k].e, jobs[k].slot))
  }

  /** The reads the misses call for: three each, in order. */
  function AllReads(pend: seq<Pend>): seq<Read> {
    if |pend| == 0 then []
    else
      var p := pend[|pend| - 1];
      AllReads(pend[..|pend| - 1]) + [Read(0, p.e, p.slot), Read(1, p.e, p.slot), Read(2, p.e, p.slot)]
  }

  lemma {:induction false} AllReadsAppend(a: seq<Pend>, b: seq<Pend>)
    ensures AllReads(a + b) == AllReads(a) + AllReads(b)
  {
    if |b| == 0 {
      assert a + b == a;
    } else {
      var k := |b| - 1;
      assert (a + b)[..|a + b| - 1] == a + b[..k];
      AllReadsAppend(a, b[..k]);
    }
  }

  /** The staging place role r of a miss gets when places below si are taken. */
  function StageAt(host: HostMap, slot: nat, r: nat, si: nat): nat {
    si + (if r > 0 && !host(0, slot) then 1 else 0) + (if r > 1 && !host(1, slot) then 1 else 0)
  }

  function MissJob(host: HostMap, p: Pend, r: nat, si: nat): ReadJob {
    if host(r, p.slot) then ReadJob(r, p.e, p.slot, true, 0)
    else ReadJob(r, p.e, p.slot, false, StageAt(host, p.slot, r, si))
  }

  /** The jobs of one miss. */
  function MissJobs(host: HostMap, p: Pend, si: nat): (jobs: seq<ReadJob>)
    ensures |jobs| == 3
  {
    [MissJob(host, p, 0, si), MissJob(host, p, 1, si), MissJob(host, p, 2, si)]
  }

  method AddJobs(jobs0: seq<ReadJob>, si0: nat, p: Pend, host: HostMap) returns (jobs: seq<ReadJob>, si: nat)
    ensures jobs == jobs0 + MissJobs(host, p, si0)
    ensures si == si0 + StageNeed(host, p.slot)
  {
    jobs, si := jobs0, si0;
    var r := 0;
    while r < 3
      invariant 0 <= r <= 3
      invariant jobs == jobs0 + MissJobs(host, p, si0)[..r]
      invariant si == (if r < 3 then StageAt(host, p.slot, r, si0) else si0 + StageNeed(host, p.slot))
    {
      if host(r, p.slot) {
        jobs := jobs + [ReadJob(r, p.e, p.slot, true, 0)];
      } else {
        jobs := jobs + [ReadJob(r, p.e, p.slot, false, si)];
        si := si + 1;
      }
      r := r + 1;
    }
  }

  /** The jobs so far are those of the misses so far, within the places taken. */
  ghost predicate Planned(jobs: seq<ReadJob>, si: nat, pend: seq<Pend>, n: nat, nSlot: nat) {
    JobsFit(jobs, si, n, nSlot) && JobsFor(jobs, pend) && ReadsOf(jobs) == AllReads(pend)
  }

  lemma PlanGrows(jobs: seq<ReadJob>, si: nat, pend: seq<Pend>, p: Pend, host: HostMap, n: nat, nSlot: nat)
    requires Planned(jobs, si, pend, n, nSlot) && p.e < n && p.slot < nSlot
    requires forall k :: 0 <= k < |pend| ==> pend[k].slot != p.slot
    ensures Planned(jobs + MissJobs(host, p, si),
                    si + StageNeed(host, p.slot), pend + [p], n, nSlot)
  {
    var three := MissJobs(host, p, si);
    assert (pend + [p])[..|pend|] == pend;
    PlanFor(jobs, three, pend, p);
    forall k | 0 <= k < |jobs| ensures jobs[k].slot != p.slot {
      assert Pend(jobs[k].e, jobs[k].slot) in pend;
    }
    PlanFit(jobs, three, si, si + StageNeed(host, p.slot), p, n, nSlot);
    PlanReads(jobs, three, p);
  }

  lemma {:induction false} PlanReads(jobs: seq<ReadJob>, three: seq<ReadJob>, p: Pend)
    requires |three| == 3 && forall r :: 0 <= r < 3 ==> three[r].role == r && three[r].e == p.e && three[r].slot == p.slot
    ensures ReadsOf(jobs + three) == ReadsOf(jobs) + [Read(0, p.e, p.slot), Read(1, p.e, p.slot), Read(2, p.e, p.slot)]
  {
  }

  lemma PlanFit(jobs: seq<ReadJob>, three: seq<ReadJob>, si: nat, si': nat, p: Pend, n: nat, nSlot: nat)
    requires JobsFit(jobs, si, n, nSlot) && p.e < n && p.slot < nSlot && si <= si'
    requires forall k :: 0 <= k < |jobs| ==> jobs[k].slot != p.slot
    requires |three| == 3 && forall r :: 0 <= r < 3 ==> three[r].role == r && three[r].e == p.e && three[r].slot == p.slot
    requires forall r :: 0 <= r < 3 && !three[r].direct ==> si <= three[r].si < si'
    requires forall q, r :: 0 <= q < r < 3 && !three[q].direct && !three[r].direct ==> three[q].si != three[r].si
    ensures JobsFit(jobs + three, si', n, nSlot)
  {
  }

  lemma PlanFor(jobs: seq<ReadJob>, three: seq<ReadJob>, pend: seq<Pend>, p: Pend)
    requires JobsFor(jobs, pend) && |three| == 3
    requires forall r :: 0 <= r < 3 ==> three[r].role == r && three[r].e == p.e && three[r].slot == p.slot
    ensures JobsFor(jobs + three, pend + [p])
  {
    var more := jobs + three;
    forall i, r | 0 <= i < |pend| + 1 && 0 <= r < ROLES ensures HasJob(more, r, (pend + [p])[i].e, (pend + [p])[i].slot) {
      if i < |pend| {
        assert HasJob(jobs, r, pend[i].e, pend[i].slot);
        var k :| 0 <= k < |jobs| && jobs[k].role == r && jobs[k].e == pend[i].e && jobs[k].slot == pend[i].slot;
        assert more[k] == jobs[k];
      } else {
        assert more[|jobs| + r] == three[r];
      }
    }
    forall k | 0 <= k < |more| ensures Pend(more[k].e, more[k].slot) in pend + [p] {
      if k >= |jobs| { assert (pend + [p])[|pend|] == p; }
    }
  }

  /** Misses base, ..., p - 1 are planned, within the places there are. */
  ghost predicate PlanTo(jobs: seq<ReadJob>, si: nat, pend: seq<Pend>, base: nat, p: nat, cap: nat, n: nat, nSlot: nat) {
    base <= p <= |pend| && si <= cap && (p == base ==> si == 0) && Planned(jobs, si, pend[base..p], n, nSlot)
  }

  lemma {:induction false} PlanNext(jobs: seq<ReadJob>, si: nat, pend: seq<Pend>, base: nat, p: nat, cap: nat,
                                    host: HostMap, n: nat, nSlot: nat)
    requires PlanTo(jobs, si, pend, base, p, cap, n, nSlot) && p < |pend| && HasRoom(host, pend[p], si, cap)
    requires PendIn(pend, n, nSlot) && DistinctSlots(pend)
    ensures PlanTo(jobs + MissJobs(host, pend[p], si),
                   si + StageNeed(host, pend[p].slot), pend, base, p + 1, cap, n, nSlot)
  {
    assert pend[base..p + 1] == pend[base..p] + [pend[p]];
    PlanGrows(jobs, si, pend[base..p], pend[p], host, n, nSlot);
  }

  lemma {:induction false} PlanFirst(pend: seq<Pend>, base: nat, cap: nat, n: nat, nSlot: nat)
    requires base <= |pend|
    ensures PlanTo([], 0, pend, base, base, cap, n, nSlot)
  {
    assert pend[base..base] == [];
    assert ReadsOf([]) == [];
  }

  /** A read goes straight to its slot exactly if the host can write there. */
  ghost predicate Routed(jobs: seq<ReadJob>, host: HostMap) {
    forall k :: 0 <= k < |jobs| ==> (jobs[k].direct <==> host(jobs[k].role, jobs[k].slot))
  }

  lemma {:induction false} RoutedNext(jobs: seq<ReadJob>, host: HostMap, m: Pend, si: nat)
    requires Routed(jobs, host)
    ensures Routed(jobs + MissJobs(host, m, si), host)
  {
    var more := jobs + MissJobs(host, m, si);
    forall k | 0 <= k < |more| ensures more[k].direct <==> host(more[k].role, more[k].slot) {
      if k >= |jobs| { assert more[k] == MissJob(host, m, k - |jobs|, si); }
    }
  }

  /** The misses from base to p are planned, in as many places as they need. */
  ghost predicate Batching(jobs: seq<ReadJob>, si: nat, pend: seq<Pend>, base: nat, p: nat, cap: nat, host: HostMap, n: nat, nSlot: nat) {
    PlanTo(jobs, si, pend, base, p, cap, n, nSlot) && si == Places(host, pend[base..p]) && Routed(jobs, host)
  }

  lemma {:induction false} PlacesNext(host: HostMap, pend: seq<Pend>, base: nat, p: nat)
    requires base <= p < |pend|
    ensures Places(host, pend[base..p + 1]) == Places(host, pend[base..p]) + StageNeed(host, pend[p].slot)
  {
    assert pend[base..p + 1][..p - base] == pend[base..p];
  }

  /** Plan one more miss. */
  method TakeMiss(jobs0: seq<ReadJob>, si0: nat, ghost pend: seq<Pend>, ghost base: nat, p: nat, m: Pend, ghost cap: nat,
                  host: HostMap, ghost n: nat, ghost nSlot: nat)
    returns (jobs: seq<ReadJob>, si: nat)
    requires p < |pend| && m == pend[p] && Batching(jobs0, si0, pend, base, p, cap, host, n, nSlot)
    requires HasRoom(host, m, si0, cap) && PendIn(pend, n, nSlot) && DistinctSlots(pend)
    ensures Batching(jobs, si, pend, base, p + 1, cap, host, n, nSlot)
  {
    RoutedNext(jobs0, host, m, si0);
    PlacesNext(host, pend, base, p);
    PlanNext(jobs0, si0, pend, base, p, cap, host, n, nSlot);
    jobs, si := AddJobs(jobs0, si0, m, host);
  }

  lemma {:induction false} PlanDone(jobs: seq<ReadJob>, si: nat, pend: seq<Pend>, base: nat, p: nat, cap: nat, n: nat, nSlot: nat)
    requires PlanTo(jobs, si, pend, base, p, cap, n, nSlot)
    ensures Planned(jobs, cap, pend[base..p], n, nSlot)
  {
    JobsFitWider(jobs, si, cap, n, nSlot);
  }

  /** The staging places misses need. */
  ghost function Places(host: HostMap, pend: seq<Pend>): nat {
    if |pend| == 0 then 0 else Places(host, pend[..|pend| - 1]) + StageNeed(host, pend[|pend| - 1].slot)
  }

  /** One batch: as many misses from base on as staging allows. It always takes at least one
      when staging has three places or none are needed. */
  method PlanBatch(pend: seq<Pend>, base: nat, cap: nat, host: HostMap, ghost n: nat, ghost nSlot: nat)
    returns (jobs: seq<ReadJob>, p: nat)
    requires base < |pend| && PendIn(pend, n, nSlot) && DistinctSlots(pend)
    ensures base <= p <= |pend|
    ensures Planned(jobs, cap, pend[base..p], n, nSlot)
    ensures forall k :: 0 <= k < |jobs| ==> (jobs[k].direct <==> host(jobs[k].role, jobs[k].slot))
    ensures cap >= 3 || StageNeed(host, pend[base].slot) == 0 ==> base < p
    ensures p < |pend| ==> StageNeed(host, pend[p].slot) > 0 && Places(host, pend[base..p]) + StageNeed(host, pend[p].slot) > cap
  {
    var si: nat := 0;
    jobs, p := [], base;
    PlanFirst(pend, base, cap, n, nSlot);
    assert pend[base..base] == [];
    while p < |pend| && HasRoom(host, pend[p], si, cap)
      invariant base <= p <= |pend| && Batching(jobs, si, pend, base, p, cap, host, n, nSlot)
    {
      jobs, si := TakeMiss(jobs, si, pend, base, p, pend[p], cap, host, n, nSlot);
      p := p + 1;
    }
    PlanDone(jobs, si, pend, base, p, cap, n, nSlot);
  }

  /** The staging places the miss needs are there. */
  predicate HasRoom(host: HostMap, m: Pend, si: nat, cap: nat) {
    StageNeed(host, m.slot) == 0 || si + StageNeed(host, m.slot) <= cap
  }

  /** One batch: its jobs and the misses they are for. */
  datatype Plan = Plan(jobs: seq<ReadJob>, pend: seq<Pend>)

  ghost predicate PlanOk(p: Plan, n: nat, nSlot: nat) {
    && JobsFit(p.jobs, STAGE_PLACES, n, nSlot) && JobsFor(p.jobs, p.pend)
    && PendIn(p.pend, n, nSlot) && DistinctSlots(p.pend)
  }

  ghost predicate PlansOk(plans: seq<Plan>, n: nat, nSlot: nat) {
    forall k :: 0 <= k < |plans| ==> PlanOk(plans[k], n, nSlot)
  }

  /** The misses of all batches, in order. */
  ghost function Parts(plans: seq<Plan>): seq<Pend> {
    if |plans| == 0 then [] else Parts(plans[..|plans| - 1]) + plans[|plans| - 1].pend
  }

  lemma {:induction false} PlansNext(plans: seq<Plan>, p: Plan, n: nat, nSlot: nat)
    requires PlansOk(plans, n, nSlot) && PlanOk(p, n, nSlot)
    ensures PlansOk(plans + [p], n, nSlot) && Parts(plans + [p]) == Parts(plans) + p.pend
  {
    assert (plans + [p])[..|plans|] == plans;
  }

  /** The misses before base are read, as planned so far. */
  ghost predicate ReadUpto(pend: seq<Pend>, base: nat, plans: seq<Plan>, slab0: seq<seq<Block>>, slab: seq<seq<Block>>,
                           log: seq<Read>, f: LayerFile, n: nat, nSlot: nat)
    requires SlabShape(slab0, nSlot) && FileShape(f, n) && PendIn(pend, n, nSlot)
  {
    && base <= |pend| && PlansOk(plans, n, nSlot) && Parts(plans) == pend[..base]
    && slab == Loaded(slab0, pend[..base], f, n, nSlot) && log == AllReads(pend[..base])
  }

  lemma {:induction false} PlansGrow(pend: seq<Pend>, base: nat, p: nat, plans: seq<Plan>, jobs: seq<ReadJob>, cap: nat, n: nat, nSlot: nat)
    requires PendIn(pend, n, nSlot) && DistinctSlots(pend) && base <= p <= |pend| && PlansOk(plans, n, nSlot)
    requires cap <= STAGE_PLACES && Planned(jobs, cap, pend[base..p], n, nSlot) && Parts(plans) == pend[..base]
    ensures var q := plans + [Plan(jobs, pend[base..p])];
      PlansOk(q, n, nSlot) && Parts(q) == pend[..p]
  {
    assert pend[..p] == pend[..base] + pend[base..p];
    JobsFitWider(jobs, cap, STAGE_PLACES, n, nSlot);
    PlansNext(plans, Plan(jobs, pend[base..p]), n, nSlot);
  }

  lemma {:induction false} LoadsGrow(pend: seq<Pend>, base: nat, p: nat, slab: seq<seq<Block>>, f: LayerFile, n: nat, nSlot: nat)
    requires SlabShape(slab, nSlot) && FileShape(f, n) && PendIn(pend, n, nSlot) && base <= p <= |pend|
    ensures Loaded(slab, pend[..p], f, n, nSlot) == Loaded(Loaded(slab, pend[..base], f, n, nSlot), pend[base..p], f, n, nSlot)
    ensures AllReads(pend[..p]) == AllReads(pend[..base]) + AllReads(pend[base..p])
  {
    assert pend[..p] == pend[..base] + pend[base..p];
    LoadedAppend(slab, pend[..base], pend[base..p], f, n, nSlot);
    AllReadsAppend(pend[..base], pend[base..p]);
  }

  lemma {:induction false} ReadNext(pend: seq<Pend>, base: nat, p: nat, plans: seq<Plan>, slab0: seq<seq<Block>>, slab: seq<seq<Block>>,
                                    log: seq<Read>, jobs: seq<ReadJob>, cap: nat, f: LayerFile, n: nat, nSlot: nat)
    requires SlabShape(slab0, nSlot) && FileShape(f, n) && PendIn(pend, n, nSlot) && DistinctSlots(pend)
    requires ReadUpto(pend, base, plans, slab0, slab, log, f, n, nSlot) && base <= p <= |pend|
    requires cap <= STAGE_PLACES && Planned(jobs, cap, pend[base..p], n, nSlot)
    ensures ReadUpto(pend, p, plans + [Plan(jobs, pend[base..p])], slab0, Loaded(slab, pend[base..p], f, n, nSlot),
                     log + ReadsOf(jobs), f, n, nSlot)
  {
    PlansGrow(pend, base, p, plans, jobs, cap, n, nSlot);
    LoadsGrow(pend, base, p, slab0, f, n, nSlot);
  }

  /** All misses of a call. Every read is carried out exactly once and the slab ends up with
      every miss loaded; the branch that gives up on the rest is reached only when there is
      nothing to stage into (no byte sizes known), which cannot happen with a real model. */
  method ReadMisses(pend: seq<Pend>, slab0: seq<seq<Block>>, stage0: seq<Block>, maxb: nat, f: LayerFile,
                    host: HostMap, n: nat, nSlot: nat)
    returns (slab: seq<seq<Block>>, stage: seq<Block>, log: seq<Read>, discarded: bool, ghost plans: seq<Plan>)
    requires SlabShape(slab0, nSlot) && FileShape(f, n) && PendIn(pend, n, nSlot) && DistinctSlots(pend)
    requires |stage0| == 0 || |stage0| == STAGE_PLACES
    ensures SlabShape(slab, nSlot) && (|stage| == 0 || |stage| == 96)
    ensures discarded ==> maxb == 0
    ensures !discarded ==> slab == Loaded(slab0, pend, f, n, nSlot) && log == AllReads(pend)
    ensures PlansOk(plans, n, nSlot) && (!discarded ==> Parts(plans) == pend)
  {
    slab, log, discarded, plans := slab0, [], false, [];
    stage := StageFor(pend, stage0, maxb, host);
    var cap := if maxb > 0 then |stage| else 0;
    var base := 0;
    assert pend[..0] == [];
    while base < |pend| && !discarded
      invariant |stage| == 0 || |stage| == STAGE_PLACES
      invariant cap == (if maxb > 0 then |stage| else 0)
      invariant maxb > 0 && cap == 0 ==> forall k :: 0 <= k < |pend| ==> StageNeed(host, pend[k].slot) == 0
      invariant discarded ==> maxb == 0
      invariant ReadUpto(pend, base, plans, slab0, slab, log, f, n, nSlot)
      decreases |pend| - base, !discarded
    {
      var jobs, p := PlanBatch(pend, base, cap, host, n, nSlot);
      PlanEmpty(jobs, cap, pend[base..p], n, nSlot);
      if |jobs| == 0 {
        discarded := true;
      } else {
        ReadNext(pend, base, p, plans, slab0, slab, log, jobs, cap, f, n, nSlot);
        slab, stage := CarryOut(jobs, cap, pend[base..p], slab, stage, f, n, nSlot);
        plans, log, base := plans + [Plan(jobs, pend[base..p])], log + ReadsOf(jobs), p;
      }
    }
    assert pend[..|pend|] == pend;
  }

  /** The staging buffer, allocated when the first read needs it. */
  method StageFor(pend: seq<Pend>, stage0: seq<Block>, maxb: nat, host: HostMap) returns (stage: seq<Block>)
    requires |stage0| == 0 || |stage0| == STAGE_PLACES
    ensures |stage| == 0 || |stage| == STAGE_PLACES
    ensures maxb > 0 && |stage| == 0 ==> forall k :: 0 <= k < |pend| ==> StageNeed(host, pend[k].slot) == 0
  {
    stage := stage0;
    if |stage| == 0 && maxb > 0 {
      var needed := NeedsStage(pend, host);
      if needed { stage := seq(STAGE_PLACES, _ => []); }
    }
  }

  method NeedsStage(pend: seq<Pend>, host: HostMap) returns (needed: bool)
    ensures needed <==> exists k, r: nat :: 0 <= k < |pend| && r < 3 && !host(r, pend[k].slot)
  {
    var k := 0;
    while k < |pend|
      invariant 0 <= k <= |pend| && forall i :: 0 <= i < k ==> StageNeed(host, pend[i].slot) == 0
    {
      if StageNeed(host, pend[k].slot) > 0 {
        assert exists r: nat :: r < 3 && !host(r, pend[k].slot) by {
          assert !host(0, pend[k].slot) || !host(1, pend[k].slot) || !host(2, pend[k].slot);
        }
        return true;
      }
      k := k + 1;
    }
    needed := false;
  }

  /** Only an empty batch has no jobs. */
  lemma {:induction false} PlanEmpty(jobs: seq<ReadJob>, cap: nat, pend: seq<Pend>, n: nat, nSlot: nat)
    requires Planned(jobs, cap, pend, n, nSlot)
    ensures jobs == [] <==> pend == []
  {
    assert |ReadsOf(jobs)| == |jobs|;
  }

  lemma JobsFitWider(jobs: seq<ReadJob>, cap: nat, places: nat, n: nat, nSlot: nat)
    requires JobsFit(jobs, cap, n, nSlot) && cap <= places
    ensures JobsFit(jobs, places, n, nSlot)
  {
  }

  method CarryOut(jobs: seq<ReadJob>, ghost cap: nat, ghost pend: seq<Pend>, slab0: seq<seq<Block>>, stage0: seq<Block>, f: LayerFile, n: nat, nSlot: nat)
    returns (slab: seq<seq<Block>>, stage: seq<Block>)
    requires SlabShape(slab0, nSlot) && FileShape(f, n) && cap <= |stage0| && Planned(jobs, cap, pend, n, nSlot)
    requires PendIn(pend, n, nSlot) && DistinctSlots(pend)
    ensures SlabShape(slab, nSlot) && |stage| == |stage0|
    ensures slab == Loaded(slab0, pend, f, n, nSlot)
  {
    JobsFitWider(jobs, cap, |stage0|, n, nSlot);
    slab, stage := RunReads(jobs, slab0, stage0, f, n, nSlot);
    slab := Upload(jobs, slab, stage, f, n, nSlot);
    BatchLoads(jobs, pend, slab0, slab, f, n, nSlot);
  }
}
