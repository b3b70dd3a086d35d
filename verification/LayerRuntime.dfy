/** The remap as the program runs it on one layer: release loop, choice of the owned experts,
    acquire loop, reads. */
module LayerRuntimes {
  import opened Seqs
  import opened Memory
  import opened CacheModel
  import opened CacheInvariants
  import opened SlotConservation
  import opened CacheReachability
  import opened LayerIsolation
  import opened Exhaustion
  import opened RemapModel
  import opened RemapCalls
  import opened ExpertCaches
  import ExpertSweep
  import QuotaModel
  import Staging

  /** Experts of the batch owned by this pass: mark what occurs, list it in ascending order,
      mark the pass's part of the list. */
  method ChooseOwned(ids: seq<int>, n: nat, np: nat, pass: nat) returns (own: seq<bool>)
    ensures own == ExpertSweep.Own(ids, n, np, pass)
  {
    if np <= 1 { return seq(n, _ => true); }
    var distinct := ListDistinct(ids, n);
    var per := ExpertSweep.Per(|distinct|, np);
    var lo := ExpertSweep.Lo(|distinct|, per, pass);
    var hi := ExpertSweep.Hi(|distinct|, per, pass);
    assert forall i :: 0 <= i < |distinct| ==> distinct[i] in distinct;
    own := MarkPart(distinct, n, lo, hi);
  }

  method ListDistinct(ids: seq<int>, n: nat) returns (distinct: seq<nat>)
    ensures distinct == ExpertSweep.Distinct(ids, n)
  {
    var seen := MarkSeen(ids, n);
    distinct := [];
    var e := 0;
    while e < n
      invariant 0 <= e <= n && distinct == ExpertSweep.Distinct(ids, e)
    {
      if seen[e] { distinct := distinct + [e]; }
      e := e + 1;
    }
  }

  method MarkSeen(ids: seq<int>, n: nat) returns (seen: seq<bool>)
    ensures |seen| == n && forall e :: 0 <= e < n ==> (seen[e] <==> e in ids)
  {
    seen := seq(n, _ => false);
    var j := 0;
    while j < |ids|
      invariant 0 <= j <= |ids| && |seen| == n
      invariant forall e :: 0 <= e < n ==> (seen[e] <==> e in ids[..j])
    {
      assert ids[..j + 1] == ids[..j] + [ids[j]];
      if 0 <= ids[j] < n { seen := seen[ids[j] := true]; }
      j := j + 1;
    }
    assert ids[..|ids|] == ids;
  }

  method MarkPart(d: seq<nat>, n: nat, lo: nat, hi: nat) returns (own: seq<bool>)
    requires lo <= hi <= |d| && QueueIn(d, n)
    ensures own == seq(n, e => e in d[lo..hi])
  {
    own := seq(n, _ => false);
    var i := lo;
    while i < hi
      invariant lo <= i <= hi && own == seq(n, e => e in d[lo..i])
    {
      assert d[lo..i + 1] == d[lo..i] + [d[i]];
      own := own[d[i] := true];
      i := i + 1;
    }
  }

  /** The first q lists have at ids. */
  ghost predicate FlatTo(h: seq<seq<nat>>, q: nat, at: nat) {
    q <= |h| && at == |Flat(h[..q])|
  }

  lemma {:induction false} FlatStart(h: seq<seq<nat>>)
    ensures FlatTo(h, 0, 0)
  {
  }

  lemma {:induction false} FlatNext(h: seq<seq<nat>>, q: nat, at: nat)
    requires q < |h| && FlatTo(h, q, at)
    ensures at + |h[q]| <= |Flat(h)| && Flat(h)[at..at + |h[q]|] == h[q] && FlatTo(h, q + 1, at + |h[q]|)
  {
    FlatSlice(h, q);
  }

  lemma {:induction false} FlatEnd(h: seq<seq<nat>>, at: nat)
    requires FlatTo(h, |h|, at)
    ensures at == |Flat(h)|
  {
    assert h[..|h|] == h;
  }

  /** The first q lists are empty, the others as they were. */
  predicate Emptied(h0: seq<seq<nat>>, held: seq<seq<nat>>, q: nat) {
    |h0| == |held| == PASSES && forall k :: 0 <= k < PASSES ==> held[k] == if k < q then [] else h0[k]
  }

  lemma {:induction false} EmptiedNext(h0: seq<seq<nat>>, held: seq<seq<nat>>, q: nat)
    requires Emptied(h0, held, q) && q < PASSES
    ensures held[q] == h0[q] && Emptied(h0, held[q := []], q + 1)
  {
  }

  lemma {:induction false} EmptiedAll(h0: seq<seq<nat>>, held: seq<seq<nat>>)
    requires Emptied(h0, held, PASSES)
    ensures held == NO_REFS
  {
  }

  /** The first q lists of h0, done ids in all, have been released and emptied. */
  ghost predicate Releasing(c0: State, h0: seq<seq<nat>>, c: State, held: seq<seq<nat>>, q: nat, done: nat) {
    && Plain(c0) && QueueIn(Flat(h0), c0.nExpert)
    && Emptied(h0, held, q) && FlatTo(h0, q, done)
    && done <= |Flat(h0)| && c == ReleaseAll(c0, Flat(h0)[..done])
  }

  lemma {:induction false} ReleasingFirst(c0: State, h0: seq<seq<nat>>)
    requires Plain(c0) && |h0| == PASSES && QueueIn(Flat(h0), c0.nExpert)
    ensures Releasing(c0, h0, c0, h0, 0, 0)
  {
    FlatStart(h0);
    assert Flat(h0)[..0] == [];
  }

  lemma {:induction false} ReleasingSlice(c0: State, h0: seq<seq<nat>>, c: State, held: seq<seq<nat>>, q: nat, done: nat)
    requires q < PASSES && Releasing(c0, h0, c, held, q, done)
    ensures |held| == PASSES && done + |held[q]| <= |Flat(h0)| && held[q] == Flat(h0)[done..done + |held[q]|]
  {
    FlatNext(h0, q, done);
    EmptiedNext(h0, held, q);
  }

  lemma {:induction false} ReleasingNext(c0: State, h0: seq<seq<nat>>, held: seq<seq<nat>>, q: nat, done: nat)
    requires q < PASSES && Emptied(h0, held, q) && FlatTo(h0, q, done)
    requires Plain(c0) && QueueIn(Flat(h0), c0.nExpert)
    ensures held[q] == h0[q] && done + |h0[q]| <= |Flat(h0)|
    ensures Releasing(c0, h0, ReleaseAll(c0, Flat(h0)[..done + |h0[q]|]), held[q := []], q + 1, done + |h0[q]|)
  {
    FlatNext(h0, q, done);
    EmptiedNext(h0, held, q);
  }

  lemma {:induction false} ReleasingLast(c0: State, h0: seq<seq<nat>>, c: State, held: seq<seq<nat>>, done: nat)
    requires Releasing(c0, h0, c, held, PASSES, done)
    ensures c == ReleaseAll(c0, Flat(h0)) && held == NO_REFS
  {
    EmptiedAll(h0, held);
    FlatEnd(h0, done);
    assert Flat(h0)[..done] == Flat(h0);
  }

  class LayerRuntime {
    const cache: ExpertCache
    const file: LayerFile
    const host: Staging.HostMap
    const maxb: nat
    const nbytes: nat

    var held: seq<seq<nat>>
    var slab: seq<seq<Block>>
    var stage: seq<Block>
    var zeroFilled: bool
    var exhausted: nat
    var log: seq<Staging.Read>

    ghost function View(): LayerRt
      reads this, cache
    {
      LayerRt(cache.View(), held, slab)
    }

    /** One cache for this layer: one layer, all its slots, nothing pinned, fixed quotas. */
    constructor (nExpert: nat, slots: nat, file: LayerFile, host: Staging.HostMap, maxb: nat, nbytes: nat, slab: seq<seq<Block>>)
      requires 0 < slots < NO_SLOT && SlabShape(slab, slots) && FileShape(file, nExpert)
      ensures View() == LayerRt(Init(1, nExpert, slots, 2), NO_REFS, slab)
      ensures this.file == file && this.host == host && this.maxb == maxb && this.nbytes == nbytes
      ensures !zeroFilled && stage == [] && exhausted == 0 && log == []
      ensures fresh(cache) && Valid()
    {
      var c := new ExpertCache(1, nExpert, slots, 0.25, 2, QuotaModel.Adapt(false, 512, 0.1, 8));
      cache := c;
      this.file, this.host, this.maxb, this.nbytes := file, host, maxb, nbytes;
      held, this.slab, stage := NO_REFS, slab, [];
      zeroFilled, exhausted, log := false, 0, [];
      new;
      FreshInv(Start(), file);
    }

    /** Release every pass of this layer, not just the one about to run. */
    method ReleaseHeld()
      requires Plain(cache.View()) && |held| == PASSES && QueueIn(Flat(held), cache.nExpert)
      modifies cache, this`held
      ensures cache.View() == ReleaseAll(old(cache.View()), old(Flat(held)))
      ensures held == NO_REFS
    {
      ghost var c0, h0 := cache.View(), held;
      ghost var done: nat := 0;
      ReleasingFirst(c0, h0);
      var q := 0;
      while q < PASSES
        invariant 0 <= q <= PASSES && Releasing(c0, h0, cache.View(), held, q, done)
      {
        ReleasingSlice(c0, h0, cache.View(), held, q, done);
        ReleasingNext(c0, h0, held, q, done);
        ReleasePass(q, c0, Flat(h0), done);
        done := done + |h0[q]|;
        q := q + 1;
      }
      ReleasingLast(c0, h0, cache.View(), held, done);
    }

    method ReleasePass(q: nat, ghost c0: State, ghost all: seq<nat>, ghost at: nat)
      requires Plain(c0) && QueueIn(all, c0.nExpert) && q < |held|
      requires at + |held[q]| <= |all| && held[q] == all[at..at + |held[q]|] && cache.View() == ReleaseAll(c0, all[..at])
      modifies cache, this`held
      ensures held == old(held)[q := []]
      ensures cache.View() == ReleaseAll(c0, all[..at + |old(held[q])|])
    {
      ReleaseList(held[q], c0, all, at);
      held := held[q := []];
    }

    /** Release the experts of one held list, which is all[from..from + |l|]. */
    method ReleaseList(l: seq<nat>, ghost c0: State, ghost all: seq<nat>, ghost from: nat)
      requires Plain(c0) && QueueIn(all, c0.nExpert) && from + |l| <= |all| && l == all[from..from + |l|]
      requires cache.View() == ReleaseAll(c0, all[..from])
      modifies cache
      ensures cache.View() == ReleaseAll(c0, all[..from + |l|])
    {
      var k := 0;
      while k < |l|
        invariant 0 <= k <= |l| && cache.View() == ReleaseAll(c0, all[..from + k])
      {
        assert l[k] == all[from + k];
        ReleaseNext(l[k], c0, all, from + k);
        k := k + 1;
      }
      assert k == |l|;
    }

    method ReleaseNext(e: nat, ghost c0: State, ghost all: seq<nat>, ghost at: nat)
      requires Plain(c0) && QueueIn(all, c0.nExpert) && at < |all| && e == all[at]
      requires cache.View() == ReleaseAll(c0, all[..at])
      modifies cache
      ensures cache.View() == ReleaseAll(c0, all[..at + 1])
    {
      assert all[..at + 1][..at] == all[..at];
      cache.Unref(0, e);
    }

    /** The acquire loop. */
    method ServeBatch(ids: seq<int>, own: seq<bool>) returns (out: seq<nat>, pend: seq<Pend>, refs: seq<nat>, refused: nat)
      requires Plain(cache.View()) && cache.nExpert == |own|
      requires forall k :: 0 <= k <= |ids| ==> Tidy(ServeAll(cache.View(), ids[..k], own, nbytes).c)
      modifies cache
      ensures Batch(cache.View(), out, pend, refs, refused) == ServeAll(old(cache.View()), ids, own, nbytes)
    {
      ghost var c0 := cache.View();
      out, pend, refs, refused := [], [], [], 0;
      var i := 0;
      while i < |ids|
        invariant 0 <= i <= |ids|
        invariant Batch(cache.View(), out, pend, refs, refused) == ServeAll(c0, ids[..i], own, nbytes)
      {
        out, pend, refs, refused := ServeNext(ids, i, own, out, pend, refs, refused, c0);
        i := i + 1;
      }
      assert ids[..|ids|] == ids;
    }

    /** Id number i of the batch. */
    method ServeNext(ids: seq<int>, i: nat, own: seq<bool>, out0: seq<nat>, pend0: seq<Pend>, refs0: seq<nat>, refused0: nat,
                     ghost c0: State)
      returns (out: seq<nat>, pend: seq<Pend>, refs: seq<nat>, refused: nat)
      requires Plain(c0) && c0.nExpert == |own| == cache.nExpert && i < |ids|
      requires Tidy(ServeAll(c0, ids[..i], own, nbytes).c)
      requires Batch(cache.View(), out0, pend0, refs0, refused0) == ServeAll(c0, ids[..i], own, nbytes)
      modifies cache
      ensures Batch(cache.View(), out, pend, refs, refused) == ServeAll(c0, ids[..i + 1], own, nbytes)
    {
      assert ids[..i + 1][..i] == ids[..i];
      out, pend, refs, refused := ServeId(ids[i], own, out0, pend0, refs0, refused0);
    }

    method ServeId(id: int, own: seq<bool>, out0: seq<nat>, pend0: seq<Pend>, refs0: seq<nat>, refused0: nat)
      returns (out: seq<nat>, pend: seq<Pend>, refs: seq<nat>, refused: nat)
      requires Plain(cache.View()) && cache.nExpert == |own| && Tidy(cache.View())
      modifies cache
      ensures Batch(cache.View(), out, pend, refs, refused) ==
              ServeOne(Batch(old(cache.View()), out0, pend0, refs0, refused0), id, own, nbytes)
    {
      out, pend, refs, refused := out0, pend0, refs0, refused0;
      var sid := cache.nSlot;
      if Owned(id, own) {
        AcquireShape(cache.View(), 0, id, Demand);
        var hit, slot := cache.Serve(0, id, Demand);
        if slot == NO_SLOT {
          refused := refused + 1;
        } else {
          if !hit {
            pend := pend + [Pend(id, slot)];
            cache.Mark(0, id, nbytes);
          }
          sid := slot;
          refs := refs + [id];
        }
      }
      out := out + [sid];
    }

    /** The first call fills the null expert's places. */
    method EnsureZeroSlot()
      requires SlabShape(slab, cache.nSlot) && |file.zeros| == ROLES
      modifies this`slab, this`zeroFilled
      ensures zeroFilled
      ensures slab == (if old(zeroFilled) then old(slab) else ZeroFilled(old(slab), cache.nSlot, file))
    {
      if zeroFilled { return; }
      zeroFilled := true;
      ghost var s0 := slab;
      var r := 0;
      while r < ROLES
        invariant 0 <= r <= ROLES && |slab| == ROLES && zeroFilled
        invariant forall k :: 0 <= k < ROLES ==>
          slab[k] == (if k < r then s0[k][cache.nSlot := file.zeros[k]] else s0[k])
      {
        slab := slab[r := slab[r][cache.nSlot := file.zeros[r]]];
        r := r + 1;
      }
    }

    /** What the next call starts from: the null expert's places are filled by then. */
    ghost function Start(): LayerRt
      requires SlabShape(slab, cache.nSlot) && |file.zeros| == ROLES
      reads this, cache
    {
      if zeroFilled then View() else View().(slab := ZeroFilled(slab, cache.nSlot, file))
    }

    ghost predicate Valid()
      reads this, cache
    {
      && SlabShape(slab, cache.nSlot) && |file.zeros| == ROLES
      && (|stage| == 0 || |stage| == Staging.STAGE_PLACES)
      && RtInv(Start(), file)
    }

    /** One call of the remap: the ids to hand to the matrix multiplication. */
    method Remap(call: Call) returns (out: seq<nat>)
      requires Valid() && maxb > 0 && CallOk(call) && CallSafe(call, cache.nExpert, cache.nSlot)
      modifies this, cache
      ensures Valid() && zeroFilled
      ensures RtShape(old(Start()), file)
      ensures View() == After(old(Start()), file, call, nbytes)
      ensures out == Serve(old(Start()), file, call, nbytes).out
      ensures exhausted == old(exhausted) + Serve(old(Start()), file, call, nbytes).exhausted
      ensures log == old(log) + Staging.AllReads(Serve(old(Start()), file, call, nbytes).pend)
    {
      CallReady(Start(), file, call, nbytes);
      RemapKeeps(Start(), file, call, nbytes);
      AfterShape(Start(), file, call, nbytes);
      out := Execute(call);
    }

    /** The start of a call: the null expert is in place and nothing is held any more. */
    method Prepare()
      requires SlabShape(slab, cache.nSlot) && |file.zeros| == ROLES
      requires Plain(cache.View()) && |held| == PASSES && QueueIn(Flat(held), cache.nExpert)
      modifies this`slab, this`zeroFilled, this`held, cache
      ensures zeroFilled && held == NO_REFS
      ensures slab == old(Start()).slab
      ensures cache.View() == ReleaseAll(old(cache.View()), old(Flat(held)))
    {
      EnsureZeroSlot();
      ReleaseHeld();
    }

    method Execute(call: Call) returns (out: seq<nat>)
      requires SlabShape(slab, cache.nSlot) && FileShape(file, cache.nExpert) && maxb > 0 && CallOk(call)
      requires |stage| == 0 || |stage| == Staging.STAGE_PLACES
      requires Ready(Start(), file, call, nbytes)
      modifies this, cache
      ensures zeroFilled && (|stage| == 0 || |stage| == Staging.STAGE_PLACES)
      ensures SlabShape(slab, cache.nSlot)
      ensures var b := Batched(old(Start()), call, nbytes);
        && View() == LayerRt(b.c, NO_REFS[call.pass := b.held], Loaded(old(Start()).slab, b.pend, file, cache.nExpert, cache.nSlot))
        && out == b.out && exhausted == old(exhausted) + b.exhausted && log == old(log) + Staging.AllReads(b.pend)
    {
      Prepare();
      out := ServeAndFetch(call);
    }

    /** The call proper: choose the experts, acquire, read the misses. */
    method ServeAndFetch(call: Call) returns (out: seq<nat>)
      requires SlabShape(slab, cache.nSlot) && FileShape(file, cache.nExpert) && maxb > 0 && call.pass < |held|
      requires |stage| == 0 || |stage| == Staging.STAGE_PLACES
      requires CanServe(cache.View(), call, nbytes)
      modifies this`slab, this`stage, this`log, this`held, this`exhausted, cache
      ensures |stage| == 0 || |stage| == Staging.STAGE_PLACES
      ensures var b := OwnedBatch(old(cache.View()), call, nbytes);
        && cache.View() == b.c && held == old(held)[call.pass := b.held]
        && slab == Loaded(old(slab), b.pend, file, cache.nExpert, cache.nSlot)
        && out == b.out && exhausted == old(exhausted) + b.exhausted && log == old(log) + Staging.AllReads(b.pend)
    {
      var own := ChooseOwned(call.ids, cache.nExpert, call.np, call.pass);
      var pend, refs, refused;
      out, pend, refs, refused := ServeBatch(call.ids, own);
      exhausted := exhausted + refused;
      held := held[call.pass := refs];
      Fetch(pend);
    }

    method Fetch(pend: seq<Pend>)
      requires SlabShape(slab, cache.nSlot) && FileShape(file, cache.nExpert) && maxb > 0
      requires PendIn(pend, cache.nExpert, cache.nSlot) && DistinctSlots(pend)
      requires |stage| == 0 || |stage| == Staging.STAGE_PLACES
      modifies this`slab, this`stage, this`log
      ensures |stage| == 0 || |stage| == Staging.STAGE_PLACES
      ensures slab == Loaded(old(slab), pend, file, cache.nExpert, cache.nSlot)
      ensures log == old(log) + Staging.AllReads(pend)
    {
      var slab', stage', done, discarded, plans := Staging.ReadMisses(pend, slab, stage, maxb, file, host, cache.nExpert, cache.nSlot);
      slab, stage, log := slab', stage', log + done;
    }
  }

  /** The slab with the null expert's places zeroed. */
  function ZeroFilled(slab: seq<seq<Block>>, nSlot: nat, f: LayerFile): (s: seq<seq<Block>>)
    requires SlabShape(slab, nSlot) && |f.zeros| == ROLES
    ensures SlabShape(s, nSlot)
  {
    seq(ROLES, r requires 0 <= r < ROLES => slab[r][nSlot := f.zeros[r]])
  }

  /** The batch a call serves, from the state rt. */
  ghost function Batched(rt: LayerRt, call: Call, nbytes: nat): Batch
    requires Plain(rt.c) && QueueIn(Flat(rt.held), rt.c.nExpert)
  {
    OwnedBatch(ReleaseAll(rt.c, Flat(rt.held)), call, nbytes)
  }

  /** The acquire loop of a call over the experts it owns. */
  ghost function OwnedBatch(c: State, call: Call, nbytes: nat): Batch
    requires Plain(c)
  {
    ServeAll(c, call.ids, ExpertSweep.Own(call.ids, c.nExpert, call.np, call.pass), nbytes)
  }

  /** The queues can be scanned after every id, and the pending reads go to different real slots. */
  ghost predicate CanServe(c: State, call: Call, nbytes: nat) {
    && Plain(c)
    && var own := ExpertSweep.Own(call.ids, c.nExpert, call.np, call.pass);
       && (forall k :: 0 <= k <= |call.ids| ==> Tidy(ServeAll(c, call.ids[..k], own, nbytes).c))
       && PendIn(OwnedBatch(c, call, nbytes).pend, c.nExpert, c.nSlot)
       && DistinctSlots(OwnedBatch(c, call, nbytes).pend)
  }

  /** What the loops of a call need: in-range references, scannable queues after every id,
      and pending reads into different real slots. */
  ghost predicate Ready(rt: LayerRt, f: LayerFile, call: Call, nbytes: nat) {
    && Plain(rt.c) && |rt.held| == PASSES && QueueIn(Flat(rt.held), rt.c.nExpert)
    && CanServe(ReleaseAll(rt.c, Flat(rt.held)), call, nbytes)
  }

  lemma CallReady(rt: LayerRt, f: LayerFile, call: Call, nbytes: nat)
    requires RtInv(rt, f) && CallSafe(call, rt.c.nExpert, rt.c.nSlot)
    ensures Ready(rt, f, call, nbytes)
    ensures Batched(rt, call, nbytes) == Serve(rt, f, call, nbytes)
  {
    ServePending(rt, f, call, nbytes);
    var own := OwnOf(call, rt.c.nExpert);
    var c := Begin(rt, f);
    forall k | 0 <= k <= |call.ids| ensures Tidy(ServeAll(c, call.ids[..k], own, nbytes).c) {
      ServeAllSolo(c, call.ids[..k], own, nbytes);
      InvTidy(ServeAll(c, call.ids[..k], own, nbytes).c);
    }
  }

  /** List q is the slice of the flattened lists that follows the lists before it. */
  lemma {:induction false} FlatSlice(h: seq<seq<nat>>, q: nat)
    requires q < |h|
    ensures var at := |Flat(h[..q])|;
      at + |h[q]| <= |Flat(h)| && Flat(h)[at..at + |h[q]|] == h[q] && |Flat(h[..q + 1])| == at + |h[q]|
  {
    assert h[..q + 1][..q] == h[..q];
    if q + 1 == |h| {
      assert h[..q + 1] == h;
    } else {
      var k := |h| - 1;
      FlatSlice(h[..k], q);
      assert h[..k][..q] == h[..q];
    }
  }
}
