/** The id remap of one layer: what one call does to the layer's cache, held references and
    slab, and the ids it hands to the matrix multiplication. */
module RemapModel {
  import opened Seqs
  import opened Memory
  import opened CacheModel
  import opened CacheInvariants
  import opened SlotConservation
  import opened CacheReachability
  import opened LayerIsolation
  import opened Exhaustion

  /** A miss waiting for its three reads. */
  datatype Pend = Pend(e: nat, slot: nat)

  /** The acquire loop after some prefix of the ids. */
  datatype Batch = Batch(c: State, out: seq<nat>, pend: seq<Pend>, held: seq<nat>, exhausted: nat)

  /** Expert ids come from the router as int32; only ids of this pass's experts are served. */
  predicate Owned(id: int, own: seq<bool>) {
    0 <= id < |own| && own[id]
  }

  /** What the cache's answer for an owned id makes of the batch. */
  ghost function Answered(b: Batch, id: nat, r: Answer, nbytes: nat): Batch
    requires |r.s.layers| > 0 && id < |r.s.layers[0].ent|
  {
    if r.slot == NO_SLOT then b.(c := r.s, out := b.out + [b.c.nSlot], exhausted := b.exhausted + 1)
    else if r.hit then b.(c := r.s, out := b.out + [r.slot], held := b.held + [id])
    else b.(c := MarkResident(r.s, 0, id, nbytes), out := b.out + [r.slot],
            held := b.held + [id], pend := b.pend + [Pend(id, r.slot)])
  }

  /** One id: the null expert when it is not owned or no slot can be had, else its slot,
      with a reference kept and, on a miss, a read pending. */
  ghost function ServeOne(b: Batch, id: int, own: seq<bool>, nbytes: nat): (t: Batch)
    requires Plain(b.c) && b.c.nExpert == |own|
    ensures Plain(t.c) && t.c.nExpert == |own| && t.c.nSlot == b.c.nSlot
  {
    var zero := b.c.nSlot;
    if !Owned(id, own) then b.(out := b.out + [zero])
    else
      AcquireShape(b.c, 0, id, Demand);
      Answered(b, id, Acquire(b.c, 0, id, Demand), nbytes)
  }

  lemma SoloPlain(c: State)
    requires Solo(c)
    ensures Plain(c)
  {
    SoloFacts(c);
  }

  lemma ServeOneSolo(b: Batch, id: int, own: seq<bool>, nbytes: nat)
    requires Solo(b.c) && b.c.nExpert == |own|
    ensures Plain(b.c) && Solo(ServeOne(b, id, own, nbytes).c)
  {
    SoloPlain(b.c);
    if Owned(id, own) {
      DemandEffect(b.c, id);
      var r := Acquire(b.c, 0, id, Demand).s;
      if !Acquire(b.c, 0, id, Demand).hit && Acquire(b.c, 0, id, Demand).slot != NO_SLOT {
        EntrywiseFixed(r, 0, id, Arrived(0, id, nbytes));
        EntrywiseLocal(r, 0, id, Arrived(0, id, nbytes));
      }
    }
  }

  /** The acquire loop over a whole batch. */
  ghost function ServeAll(c: State, ids: seq<int>, own: seq<bool>, nbytes: nat): (b: Batch)
    requires Plain(c) && c.nExpert == |own|
    ensures Plain(b.c) && b.c.nExpert == |own| && b.c.nSlot == c.nSlot
  {
    if |ids| == 0 then Batch(c, [], [], [], 0)
    else ServeOne(ServeAll(c, ids[..|ids| - 1], own, nbytes), ids[|ids| - 1], own, nbytes)
  }

  lemma {:induction false} ServeAllSolo(c: State, ids: seq<int>, own: seq<bool>, nbytes: nat)
    requires Solo(c) && c.nExpert == |own|
    ensures Plain(c) && Solo(ServeAll(c, ids, own, nbytes).c)
  {
    SoloPlain(c);
    if |ids| > 0 {
      ServeAllSolo(c, ids[..|ids| - 1], own, nbytes);
      ServeOneSolo(ServeAll(c, ids[..|ids| - 1], own, nbytes), ids[|ids| - 1], own, nbytes);
    }
  }

  // ---------------------------------------------------------------------------
  // The effect of one id
  // ---------------------------------------------------------------------------

  /** What one id does, without mentioning how the cache did it. */
  ghost predicate Served(b: Batch, t: Batch, id: int, own: seq<bool>) {
    && OneLayerShape(b.c, |own|) && OneLayerShape(t.c, |own|) && t.c.nSlot == b.c.nSlot
    && if !Owned(id, own) then t == b.(out := b.out + [b.c.nSlot])
       else
         && OthersKept(b.c.layers[0].ent, t.c.layers[0].ent, id)
         && (|own| <= b.c.nSlot ==> StayCached(b.c.layers[0].ent, t.c.layers[0].ent))
         && (!Cached(b.c, id) ==> Ent(b.c, id).rc == 0)
         && if !Cached(t.c, id) then
              Refused(b, t, id)
            else
              && t.held == b.held + [id] && t.exhausted == b.exhausted
              && t.out == b.out + [Ent(t.c, id).slot]
              && Ent(t.c, id).rc == (Ent(b.c, id).rc + 1) % RC_MOD
              && if Cached(b.c, id) then Ent(t.c, id).slot == Ent(b.c, id).slot
                   && Ent(t.c, id).resident == Ent(b.c, id).resident && t.pend == b.pend
                 else Ent(t.c, id).resident && t.pend == b.pend + [Pend(id, Ent(t.c, id).slot)]
  }

  /** The id found no slot. */
  ghost predicate Refused(b: Batch, t: Batch, id: nat)
    requires OneLayerShape(b.c, t.c.nExpert) && OneLayerShape(t.c, b.c.nExpert) && id < t.c.nExpert
  {
    && !Cached(b.c, id) && Ent(t.c, id).rc == 0
    && t.held == b.held && t.pend == b.pend && t.out == b.out + [b.c.nSlot] && t.exhausted == b.exhausted + 1
  }

  lemma {:induction false} ServeOneEffect(b: Batch, id: int, own: seq<bool>, nbytes: nat)
    requires Solo(b.c) && b.c.nExpert == |own|
    ensures Plain(b.c) && Served(b, ServeOne(b, id, own, nbytes), id, own)
  {
    SoloPlain(b.c);
    if Owned(id, own) {
      DemandEffect(b.c, id);
      AbsentUnused(b.c, id);
      AcquireShape(b.c, 0, id, Demand);
      AnswerServes(b, id, own, Acquire(b.c, 0, id, Demand), nbytes);
    } else {
      SoloFacts(b.c);
    }
  }

  lemma {:induction false} AbsentUnused(c: State, e: nat)
    requires Solo(c) && e < c.nExpert
    ensures |c.layers[0].ent| == c.nExpert && (!Cached(c, e) ==> Ent(c, e).rc == 0)
  {
    SoloFacts(c);
    assert EntryOk(Ent(c, e), c.nSlot);
  }

  /** Any answer with the effect of a request serves the id. */
  lemma {:induction false} AnswerServes(b: Batch, id: nat, own: seq<bool>, r: Answer, nbytes: nat)
    requires OneLayerShape(b.c, |own|) && OneLayerShape(r.s, |own|) && Owned(id, own)
    requires Demanded(b.c, r, id) && (!Cached(b.c, id) ==> Ent(b.c, id).rc == 0)
    ensures Served(b, Answered(b, id, r, nbytes), id, own)
  {
  }

  // ---------------------------------------------------------------------------
  // References
  // ---------------------------------------------------------------------------

  /** Every refcount equals the multiplicity of the expert among the references held,
      as a 16-bit counter shows it. */
  ghost predicate CountsRefs(c: State, held: seq<nat>)
    requires |c.layers| == 1
  {
    forall e :: 0 <= e < |c.layers[0].ent| ==> Ent(c, e).rc == multiset(held)[e] % RC_MOD
  }

  lemma {:induction false} ServedRefs(b: Batch, t: Batch, id: int, own: seq<bool>)
    requires Served(b, t, id, own) && CountsRefs(b.c, b.held)
    ensures CountsRefs(t.c, t.held)
  {
    if Owned(id, own) {
      forall e | 0 <= e < |own| ensures Ent(t.c, e).rc == multiset(t.held)[e] % RC_MOD {
        assert Ent(b.c, e).rc == multiset(b.held)[e] % RC_MOD;
        if e != id {
          assert Keeps(b.c.layers[0].ent[e], t.c.layers[0].ent[e]);
          assert multiset(t.held)[e] == multiset(b.held)[e];
        } else if Cached(t.c, id) {
          assert multiset(t.held)[e] == multiset(b.held)[e] + 1;
        }
      }
    }
  }

  // ---------------------------------------------------------------------------
  // Slots handed out in a batch stay valid to its end
  // ---------------------------------------------------------------------------

  /** No owned expert occurs so often that its 16-bit refcount would wrap within the batch. */
  ghost predicate Light(ids: seq<int>, own: seq<bool>) {
    forall e: nat :: e < |own| && own[e] ==> multiset(ids)[e] < RC_MOD
  }

  /** No slot changes hands while the batch needs it: there is one for every expert, or no
      refcount wraps. */
  ghost predicate Safe(ids: seq<int>, own: seq<bool>, nSlot: nat) {
    |own| <= nSlot || Light(ids, own)
  }

  /** Every held expert is cached, and held once per id at most. */
  ghost predicate HeldOk(b: Batch, ids: seq<int>, own: seq<bool>) {
    OneLayerShape(b.c, |own|)
    && forall e :: e in b.held ==>
         Owned(e, own) && Cached(b.c, e) && 0 < multiset(b.held)[e] <= multiset(ids)[e]
  }

  /** Output i: the null expert, or the slot its held expert still has. */
  ghost predicate OutOk(b: Batch, i: nat, id: int, own: seq<bool>)
    requires OneLayerShape(b.c, |own|) && i < |b.out|
  {
    b.out[i] == b.c.nSlot || (Owned(id, own) && id in b.held && b.out[i] == Ent(b.c, id).slot)
  }

  /** Pending reads are for held experts, one each, into the slots they still have. */
  ghost predicate PendOk(b: Batch, n: nat) {
    && OneLayerShape(b.c, n)
    && (forall k :: 0 <= k < |b.pend| ==> b.pend[k].e < n && b.pend[k].e in b.held && Ent(b.c, b.pend[k].e).slot == b.pend[k].slot)
    && (forall j, k :: 0 <= j < k < |b.pend| ==> b.pend[j].e != b.pend[k].e)
  }

  /** Every cached expert is waiting for its read or was there, in the same slot, before. */
  ghost predicate EntriesFrom(b: Batch, c0: State, n: nat) {
    && OneLayerShape(b.c, n) && OneLayerShape(c0, n)
    && forall e :: 0 <= e < n && Cached(b.c, e) ==>
         Ent(b.c, e).resident
         && (Pend(e, Ent(b.c, e).slot) in b.pend || (Cached(c0, e) && Ent(b.c, e).slot == Ent(c0, e).slot))
  }

  /** A held expert keeps its slot while another id is served. */
  lemma HeldStays(b: Batch, t: Batch, ids: seq<int>, id: int, own: seq<bool>, d: nat)
    requires Served(b, t, id, own) && CountsRefs(b.c, b.held) && HeldOk(b, ids, own) && Safe(ids, own, b.c.nSlot)
    requires d in b.held
    ensures d < |own| && Cached(t.c, d) && Ent(t.c, d).slot == Ent(b.c, d).slot
  {
    assert Ent(b.c, d).rc == multiset(b.held)[d] % RC_MOD;
    assert Light(ids, own) ==> 0 < multiset(b.held)[d] <= multiset(ids)[d] < RC_MOD;
    if Owned(id, own) && d != id {
      assert Keeps(b.c.layers[0].ent[d], t.c.layers[0].ent[d]);
    }
  }

  lemma ServedHeld(b: Batch, t: Batch, ids: seq<int>, id: int, own: seq<bool>)
    requires Served(b, t, id, own) && CountsRefs(b.c, b.held) && HeldOk(b, ids, own) && Safe(ids, own, b.c.nSlot)
    ensures HeldOk(t, ids + [id], own)
  {
    forall e | e in t.held
      ensures Owned(e, own) && Cached(t.c, e) && 0 < multiset(t.held)[e] <= multiset(ids + [id])[e]
    {
      assert multiset(ids + [id]) == multiset(ids) + multiset{id};
      if e in b.held { HeldStays(b, t, ids, id, own, e); }
      if Owned(id, own) && Cached(t.c, id) {
        assert multiset(t.held)[e] == multiset(b.held)[e] + (if e == id then 1 else 0);
        assert multiset(b.held)[e] <= multiset(ids)[e];
      }
    }
  }

  lemma ServedOut(b: Batch, t: Batch, ids: seq<int>, id: int, own: seq<bool>)
    requires Served(b, t, id, own) && CountsRefs(b.c, b.held) && HeldOk(b, ids, own) && Safe(ids, own, b.c.nSlot)
    requires |b.out| == |ids| && forall i :: 0 <= i < |ids| ==> OutOk(b, i, ids[i], own)
    ensures |t.out| == |ids| + 1 && forall i :: 0 <= i < |ids| ==> OutOk(t, i, ids[i], own)
    ensures OutOk(t, |ids|, id, own)
  {
    forall i | 0 <= i < |ids| ensures OutOk(t, i, ids[i], own) {
      assert OutOk(b, i, ids[i], own) && t.out[i] == b.out[i];
      if Owned(ids[i], own) && ids[i] in b.held { HeldStays(b, t, ids, id, own, ids[i]); }
    }
    if Owned(id, own) && Cached(t.c, id) { assert t.held[|b.held|] == id; }
  }

  lemma ServedPend(b: Batch, t: Batch, ids: seq<int>, id: int, own: seq<bool>)
    requires Served(b, t, id, own) && CountsRefs(b.c, b.held) && HeldOk(b, ids, own) && Safe(ids, own, b.c.nSlot)
    requires PendOk(b, |own|)
    ensures PendOk(t, |own|)
  {
    forall k | 0 <= k < |b.pend|
      ensures b.pend[k].e < |own| && b.pend[k].e in t.held && Ent(t.c, b.pend[k].e).slot == b.pend[k].slot
    {
      HeldStays(b, t, ids, id, own, b.pend[k].e);
      assert b.pend[k].e in b.held;
    }
    if Owned(id, own) && Cached(t.c, id) { assert t.held[|b.held|] == id; }
  }

  lemma ServedEntries(b: Batch, t: Batch, id: int, own: seq<bool>, c0: State)
    requires Served(b, t, id, own) && EntriesFrom(b, c0, |own|)
    ensures EntriesFrom(t, c0, |own|)
  {
    if Owned(id, own) {
      forall e | 0 <= e < |own| && Cached(t.c, e)
        ensures Ent(t.c, e).resident
        ensures Pend(e, Ent(t.c, e).slot) in t.pend || (Cached(c0, e) && Ent(t.c, e).slot == Ent(c0, e).slot)
      {
        if e != id {
          assert Keeps(b.c.layers[0].ent[e], t.c.layers[0].ent[e]);
        } else if !Cached(b.c, id) {
          assert t.pend[|b.pend|] == Pend(id, Ent(t.c, id).slot);
        }
        if Cached(b.c, e) && Pend(e, Ent(b.c, e).slot) in b.pend {
          var k :| 0 <= k < |b.pend| && b.pend[k] == Pend(e, Ent(b.c, e).slot);
          assert t.pend[k] == b.pend[k];
        }
      }
    }
  }

  /** All of it, at the end of a batch that started without references. */
  ghost predicate Sound(b: Batch, ids: seq<int>, own: seq<bool>, c0: State) {
    && HeldOk(b, ids, own) && CountsRefs(b.c, b.held) && PendOk(b, |own|) && EntriesFrom(b, c0, |own|)
    && |b.out| == |ids| && forall i :: 0 <= i < |ids| ==> OutOk(b, i, ids[i], own)
  }

  /** Nobody holds a reference. */
  ghost predicate NoRefs(c: State, n: nat) {
    OneLayerShape(c, n) && forall e :: 0 <= e < n ==> Ent(c, e).rc == 0
  }

  /** Nobody holds a reference, and every cached expert is ready. */
  ghost predicate Quiet(c: State, n: nat) {
    NoRefs(c, n) && forall e :: 0 <= e < n && Cached(c, e) ==> Ent(c, e).resident
  }

  lemma ServedSound(b: Batch, t: Batch, ids: seq<int>, id: int, own: seq<bool>, c0: State)
    requires Served(b, t, id, own) && Sound(b, ids, own, c0) && Safe(ids, own, b.c.nSlot)
    ensures Sound(t, ids + [id], own, c0)
  {
    assert multiset(ids + [id]) == multiset(ids) + multiset{id};
    ServedRefs(b, t, id, own);
    ServedHeld(b, t, ids, id, own);
    ServedOut(b, t, ids, id, own);
    ServedPend(b, t, ids, id, own);
    ServedEntries(b, t, id, own, c0);
  }

  /** Whatever the batch, refcounts count the references it takes. */
  lemma {:induction false} ServeAllRefs(c: State, ids: seq<int>, own: seq<bool>, nbytes: nat)
    requires Solo(c) && c.nExpert == |own| && NoRefs(c, |own|)
    ensures Plain(c)
    ensures |ServeAll(c, ids, own, nbytes).c.layers| == 1
    ensures CountsRefs(ServeAll(c, ids, own, nbytes).c, ServeAll(c, ids, own, nbytes).held)
  {
    SoloPlain(c);
    if |ids| > 0 {
      ServeAllSolo(c, ids[..|ids| - 1], own, nbytes);
      var k := |ids| - 1;
      ServeAllRefs(c, ids[..k], own, nbytes);
      var b := ServeAll(c, ids[..k], own, nbytes);
      ServeOneEffect(b, ids[k], own, nbytes);
      ServedRefs(b, ServeOne(b, ids[k], own, nbytes), ids[k], own);
    }
  }

  lemma {:induction false} ServeAllSound(c: State, ids: seq<int>, own: seq<bool>, nbytes: nat)
    requires Solo(c) && c.nExpert == |own| && Quiet(c, |own|) && Safe(ids, own, c.nSlot)
    ensures Plain(c)
    ensures Sound(ServeAll(c, ids, own, nbytes), ids, own, c)
  {
    SoloPlain(c);
    if |ids| > 0 {
      ServeAllSolo(c, ids[..|ids| - 1], own, nbytes);
      var k := |ids| - 1;
      assert ids == ids[..k] + [ids[k]];
      SafePrefix(ids, own, c.nSlot, k);
      ServeAllSound(c, ids[..k], own, nbytes);
      var b := ServeAll(c, ids[..k], own, nbytes);
      ServeOneEffect(b, ids[k], own, nbytes);
      ServedSound(b, ServeOne(b, ids[k], own, nbytes), ids[..k], ids[k], own, c);
    }
  }

  lemma SafePrefix(ids: seq<int>, own: seq<bool>, nSlot: nat, k: nat)
    requires Safe(ids, own, nSlot) && k <= |ids|
    ensures Safe(ids[..k], own, nSlot)
  {
    assert ids == ids[..k] + ids[k..];
    assert multiset(ids) == multiset(ids[..k]) + multiset(ids[k..]);
  }

  // ---------------------------------------------------------------------------
  // Ranges
  // ---------------------------------------------------------------------------

  predicate PendIn(pend: seq<Pend>, n: nat, nSlot: nat) {
    forall k :: 0 <= k < |pend| ==> pend[k].e < n && pend[k].slot < nSlot
  }

  /** Outputs and pending reads name real places, held references real experts. */
  ghost predicate InRange(b: Batch, n: nat) {
    && PendIn(b.pend, n, b.c.nSlot) && QueueIn(b.held, n)
    && forall i :: 0 <= i < |b.out| ==> b.out[i] <= b.c.nSlot
  }

  /** One output more, counted as exhausted exactly if it is an owned id's null expert. */
  ghost predicate OneMore(b: Batch, t: Batch, id: int, own: seq<bool>) {
    && |t.out| == |b.out| + 1 && t.out[..|b.out|] == b.out
    && t.exhausted == b.exhausted + (if Owned(id, own) && t.out[|b.out|] == b.c.nSlot then 1 else 0)
  }

  lemma ServedInRange(b: Batch, t: Batch, id: int, own: seq<bool>)
    requires Served(b, t, id, own) && InRange(b, |own|)
    requires Owned(id, own) && Cached(t.c, id) ==> Ent(t.c, id).slot < t.c.nSlot
    ensures InRange(t, |own|)
    ensures OneMore(b, t, id, own)
  {
  }

  lemma ServeOneInRange(b: Batch, id: int, own: seq<bool>, nbytes: nat)
    requires Solo(b.c) && b.c.nExpert == |own| && InRange(b, |own|)
    ensures Plain(b.c)
    ensures var t := ServeOne(b, id, own, nbytes);
      InRange(t, |own|) && OneMore(b, t, id, own)
  {
    ServeOneEffect(b, id, own, nbytes);
    ServeOneSolo(b, id, own, nbytes);
    var t := ServeOne(b, id, own, nbytes);
    SoloFacts(t.c);
    if Owned(id, own) { assert EntryOk(Ent(t.c, id), t.c.nSlot); }
    ServedInRange(b, t, id, own);
  }

  lemma {:induction false} ServeAllInRange(c: State, ids: seq<int>, own: seq<bool>, nbytes: nat)
    requires Solo(c) && c.nExpert == |own|
    ensures Plain(c)
    ensures InRange(ServeAll(c, ids, own, nbytes), |own|)
    ensures |ServeAll(c, ids, own, nbytes).out| == |ids|
  {
    SoloPlain(c);
    if |ids| > 0 {
      ServeAllSolo(c, ids[..|ids| - 1], own, nbytes);
      var k := |ids| - 1;
      ServeAllInRange(c, ids[..k], own, nbytes);
      ServeOneInRange(ServeAll(c, ids[..k], own, nbytes), ids[k], own, nbytes);
    }
  }

  /** The owned ids that were given the null expert. */
  function Refusals(ids: seq<int>, out: seq<nat>, own: seq<bool>, nSlot: nat): nat
    requires |ids| == |out|
  {
    if |ids| == 0 then 0
    else
      var k := |ids| - 1;
      Refusals(ids[..k], out[..k], own, nSlot) + (if Owned(ids[k], own) && out[k] == nSlot then 1 else 0)
  }

  lemma {:induction false} NoRefusals(ids: seq<int>, out: seq<nat>, own: seq<bool>, nSlot: nat, i: nat)
    requires |ids| == |out| && i < |ids| && Owned(ids[i], own) && Refusals(ids, out, own, nSlot) == 0
    ensures out[i] != nSlot
  {
    var k := |ids| - 1;
    if i < k { NoRefusals(ids[..k], out[..k], own, nSlot, i); }
  }

  /** The exhaustion count of an acquire loop is exactly the number of owned ids it gave the
      null expert. */
  lemma {:induction false} ServeAllServed(c: State, ids: seq<int>, own: seq<bool>, nbytes: nat)
    requires Solo(c) && c.nExpert == |own|
    ensures Plain(c)
    ensures var b := ServeAll(c, ids, own, nbytes);
      |b.out| == |ids| && b.exhausted == Refusals(ids, b.out, own, c.nSlot)
  {
    SoloPlain(c);
    if |ids| > 0 {
      var k := |ids| - 1;
      ServeAllLast(c, ids, own, nbytes);
      ServeAllServed(c, ids[..k], own, nbytes);
    }
  }

  /** What the last id of a batch adds. */
  lemma {:induction false} ServeAllLast(c: State, ids: seq<int>, own: seq<bool>, nbytes: nat)
    requires Solo(c) && c.nExpert == |own| && |ids| > 0
    ensures Plain(c)
    ensures var k := |ids| - 1;
      var b, t := ServeAll(c, ids[..k], own, nbytes), ServeAll(c, ids, own, nbytes);
      |b.out| == k && b.c.nSlot == c.nSlot && OneMore(b, t, ids[k], own)
  {
    var k := |ids| - 1;
    ServeAllSolo(c, ids[..k], own, nbytes);
    ServeAllInRange(c, ids[..k], own, nbytes);
    ServeOneInRange(ServeAll(c, ids[..k], own, nbytes), ids[k], own, nbytes);
  }
}
