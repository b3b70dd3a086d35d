/** When a demand request finds no slot, and what it does to the other experts, on the
    cache the runtime builds for a layer: one layer, nothing pinned, quota = slots. */
module Exhaustion {
  import opened Seqs
  import opened CacheModel
  import opened CacheInvariants
  import opened SlotConservation
  import opened CacheReachability
  import opened LayerIsolation

  /** The state of the cache of one layer. */
  ghost predicate Solo(s: State) {
    Fixed(s) && |s.layers| == 1
  }

  predicate OneLayerShape(c: State, n: nat) {
    |c.layers| == 1 && c.nExpert == n && |c.layers[0].ent| == n
  }

  function Ent(s: State, e: nat): Entry
    requires |s.layers| == 1 && e < |s.layers[0].ent|
  {
    s.layers[0].ent[e]
  }

  predicate Cached(s: State, e: nat)
    requires |s.layers| == 1 && e < |s.layers[0].ent|
  {
    s.layers[0].ent[e].seg != NotCached
  }

  /** Slot x belongs to an expert in use. */
  ghost predicate InUse(s: State, x: nat)
    requires |s.layers| == 1
  {
    exists d :: 0 <= d < |s.layers[0].ent| && Cached(s, d) && Ent(s, d).slot == x && Ent(s, d).rc > 0
  }

  ghost predicate AllInUse(s: State)
    requires |s.layers| == 1
  {
    forall x :: 0 <= x < s.nSlot ==> InUse(s, x)
  }

  lemma SoloFacts(s: State)
    requires Solo(s)
    ensures s.quota == [s.nSlot] && Shape(s) && |s.layers[0].ent| == s.nExpert
    ensures |s.free| + s.layers[0].resident == s.nSlot
    ensures s.layers[0].resident == |s.layers[0].small| + |s.layers[0].main|
    ensures PinnedSet(s.layers[0].ent) == {}
    ensures LayerInv(s.layers[0], s.nExpert, s.nSlot)
  {
    InvTidy(s);
    assert Sum(s.quota[..0]) == 0 && |s.quota| == 1;
    assert Sum(s.quota) == s.quota[0];
    assert Residents(s.layers) == [s.layers[0].resident];
    assert Residents(s.layers)[..0] == [];
    assert LayerInv(s.layers[0], s.nExpert, s.nSlot);
  }

  lemma FullImpliesAllInUse(s: State)
    requires Solo(s) && s.layers[0].resident == s.nSlot && !HasIdle(s.layers[0])
    ensures AllInUse(s)
  {
    SoloFacts(s);
    var ly := s.layers[0];
    forall x | 0 <= x < s.nSlot ensures InUse(s, x) {
      assert s.free == [];
      assert Occupied(s.layers, x);
      assert x in Occ(ly);
      var d :| 0 <= d < |ly.ent| && ly.ent[d].seg != NotCached && ly.ent[d].slot == x;
      assert d !in PinnedSet(ly.ent);
      assert ly.ent[d].seg in {Small, Main};
      assert Cached(s, d) && Ent(s, d).slot == x && Ent(s, d).rc > 0;
    }
  }

  lemma FreeNotInUse(s: State, x: nat)
    requires Solo(s) && x in s.free
    ensures !InUse(s, x)
  {
    SoloFacts(s);
    forall d | 0 <= d < |s.layers[0].ent| && Cached(s, d) ensures Ent(s, d).slot != x {
      assert Ent(s, d).slot in Occ(s.layers[0]);
    }
  }

  lemma SlackImpliesNotAllInUse(s: State)
    requires Solo(s) && (s.layers[0].resident < s.nSlot || HasIdle(s.layers[0]))
    ensures !AllInUse(s)
  {
    SoloFacts(s);
    var ly := s.layers[0];
    if s.layers[0].resident < s.nSlot {
      var x := s.free[0];
      assert x in s.free;
      FreeNotInUse(s, x);
    } else {
      var e :| 0 <= e < |ly.ent| && ly.ent[e].seg in {Small, Main} && Idle(ly.ent[e]);
      assert EntryOk(ly.ent[e], s.nSlot);
      forall d | 0 <= d < |ly.ent| && Cached(s, d) && Ent(s, d).slot == ly.ent[e].slot ensures Ent(s, d).rc == 0 {
        assert d == e;
      }
      assert !InUse(s, ly.ent[e].slot);
    }
  }

  lemma MissSolo(s: State, e: nat)
    requires Solo(s) && e < s.nExpert && s.layers[0].ent[e].seg == NotCached
    ensures Shape(s) && Solo(MissState(s, 0, e))
    ensures HasIdle(MissState(s, 0, e).layers[0]) <==> HasIdle(s.layers[0])
    ensures MissState(s, 0, e).layers[0].resident == s.layers[0].resident
  {
    SoloFacts(s);
    MissFixed(s, 0, e);
    var ly, m := s.layers[0], MissState(s, 0, e).layers[0];
    forall d | 0 <= d < |ly.ent| ensures m.ent[d].seg == ly.ent[d].seg && m.ent[d].rc == ly.ent[d].rc {
    }
    if HasIdle(ly) {
      var d :| 0 <= d < |ly.ent| && ly.ent[d].seg in {Small, Main} && Idle(ly.ent[d]);
      assert m.ent[d].seg in {Small, Main} && Idle(m.ent[d]);
    }
    if HasIdle(m) {
      var d :| 0 <= d < |m.ent| && m.ent[d].seg in {Small, Main} && Idle(m.ent[d]);
      assert ly.ent[d].seg in {Small, Main} && Idle(ly.ent[d]);
    }
  }

  lemma FullIff(s: State)
    requires Solo(s)
    ensures AllInUse(s) <==> s.layers[0].resident == s.nSlot && !HasIdle(s.layers[0])
  {
    SoloFacts(s);
    if s.layers[0].resident < s.nSlot || HasIdle(s.layers[0]) { SlackImpliesNotAllInUse(s); }
    else { FullImpliesAllInUse(s); }
  }

  lemma AfterAllocIff(ly: Layer, quota: nat, ghostMult: nat, nSlot: nat)
    requires LayerInv(ly, |ly.ent|, nSlot)
    ensures AfterAlloc(ly, quota, ghostMult).1 <==> ly.resident < quota || HasIdle(ly)
  {
    EvictKeepsLayer(ly, quota * ghostMult, |ly.ent|, nSlot);
  }

  lemma RefusedIff(s: State, e: nat)
    requires Solo(s) && e < s.nExpert && s.layers[0].ent[e].seg == NotCached
    ensures Shape(s)
    ensures Acquire(s, 0, e, Demand).slot == NO_SLOT <==> s.layers[0].resident == s.nSlot && !HasIdle(s.layers[0])
  {
    MissSolo(s, e);
    var m := MissState(s, 0, e);
    SoloFacts(m);
    AllocLocal(m, 0);
    AfterAllocIff(m.layers[0], m.nSlot, m.ghostMult, m.nSlot);
  }

  /** Exhaustion is exactly full occupation: a demand request is refused a slot if and only
      if the expert is absent and every slot belongs to an expert in use. */
  lemma ExhaustsIff(s: State, e: nat)
    requires Solo(s) && e < s.nExpert
    ensures Shape(s) && |s.layers[0].ent| == s.nExpert
    ensures Acquire(s, 0, e, Demand).slot == NO_SLOT <==> !Cached(s, e) && AllInUse(s)
  {
    SoloFacts(s);
    assert EntryOk(s.layers[0].ent[e], s.nSlot);
    if !Cached(s, e) {
      RefusedIff(s, e);
      FullIff(s);
    }
  }

  /** Small and main together: the cached experts of an unpinned layer, each once. */
  lemma QueuesAreCached(c: State)
    requires Solo(c)
    ensures |c.layers[0].ent| == c.nExpert
    ensures NoDup(c.layers[0].small + c.layers[0].main)
    ensures |c.layers[0].small + c.layers[0].main| == c.layers[0].resident
    ensures forall e :: 0 <= e < c.nExpert ==> (e in c.layers[0].small + c.layers[0].main <==> Cached(c, e))
  {
    SoloFacts(c);
    var ly := c.layers[0];
    forall e | 0 <= e < c.nExpert ensures e in ly.small + ly.main <==> Cached(c, e) {
      assert Placed(ly, e);
      assert e !in PinnedSet(ly.ent);
    }
    forall i, j | 0 <= i < |ly.small| && 0 <= j < |ly.main| ensures ly.small[i] != ly.main[j] {
      assert Placed(ly, ly.small[i]);
    }
  }

  /** Slots for every expert: an absent expert finds one free. */
  lemma {:induction false} AbsentLeavesRoom(s: State, e: nat)
    requires Solo(s) && e < s.nExpert <= s.nSlot && |s.layers[0].ent| == s.nExpert && !Cached(s, e)
    ensures s.layers[0].resident < s.nSlot
  {
    QueuesAreCached(s);
    SoloFacts(s);
    var q := s.layers[0].small + s.layers[0].main;
    assert QueueIn(q, s.nExpert);
    BoundedNoDup(q + [e], s.nExpert) by { AppendNoDup(q, e); }
  }

  // ---------------------------------------------------------------------------
  // What a demand request does to the other experts
  // ---------------------------------------------------------------------------

  /** Refcounts stay; an expert cached afterwards was cached before in the same slot; an
      expert in use stays cached. */
  ghost predicate Keeps(a: Entry, b: Entry) {
    && b.rc == a.rc
    && (b.seg != NotCached ==> a.seg != NotCached && b.slot == a.slot && b.resident == a.resident)
    && (a.rc > 0 && a.seg != NotCached ==> b.seg != NotCached)
  }

  ghost predicate OthersKept(a: seq<Entry>, b: seq<Entry>, e: nat) {
    |a| == |b| && forall d :: 0 <= d < |a| && d != e ==> Keeps(a[d], b[d])
  }

  lemma {:induction false} AfterAllocKeeps(ly: Layer, quota: nat, ghostMult: nat, e: nat, nSlot: nat)
    requires LayerInv(ly, |ly.ent|, nSlot) && e < |ly.ent| && ly.ent[e].seg == NotCached
    ensures OthersKept(ly.ent, AfterAlloc(ly, quota, ghostMult).0.ent, e)
    ensures AfterAlloc(ly, quota, ghostMult).0.ent[e].seg == NotCached
    ensures AfterAlloc(ly, quota, ghostMult).0.ent[e].rc == 0
  {
    assert EntryOk(ly.ent[e], nSlot);
    if ly.resident >= quota { EvictKeepsOthers(ly, quota * ghostMult, e, nSlot); }
  }

  /** Eviction to make room for an absent expert. */
  lemma {:induction false} EvictKeepsOthers(ly: Layer, gmax: nat, e: nat, nSlot: nat)
    requires LayerInv(ly, |ly.ent|, nSlot) && e < |ly.ent| && ly.ent[e].seg == NotCached
    ensures var r := EvictLayer(ly, gmax).ly;
      |r.ent| == |ly.ent| && OthersKept(ly.ent, r.ent, e) && r.ent[e].seg == NotCached && r.ent[e].rc == 0
  {
    assert EntryOk(ly.ent[e], nSlot);
    EvictKeepsLayer(ly, gmax, |ly.ent|, nSlot);
    if Victim(ly).Some? { assert EntryOk(EvictLayer(ly, gmax).ly.ent[Victim(ly).value], nSlot); }
  }

  /** Nobody loses its slot. */
  ghost predicate StayCached(a: seq<Entry>, b: seq<Entry>) {
    |a| == |b| && forall d :: 0 <= d < |a| && a[d].seg != NotCached ==> b[d].seg != NotCached
  }

  /** The whole effect of a demand request on the entries of the layer. */
  ghost predicate Demanded(s: State, r: Answer, e: nat)
    requires |s.layers| == 1 && e < |s.layers[0].ent|
  {
    && |r.s.layers| == 1 && r.s.nExpert == s.nExpert && r.s.nSlot == s.nSlot
    && OthersKept(s.layers[0].ent, r.s.layers[0].ent, e)
    && (s.nExpert <= s.nSlot ==> StayCached(s.layers[0].ent, r.s.layers[0].ent))
    && r.hit == Cached(s, e)
    && (r.hit ==> Cached(r.s, e) && r.slot == Ent(s, e).slot && Ent(r.s, e).slot == r.slot
                  && Ent(r.s, e).rc == (Ent(s, e).rc + 1) % RC_MOD && Ent(r.s, e).resident == Ent(s, e).resident)
    && (!r.hit && r.slot != NO_SLOT ==> Cached(r.s, e) && Ent(r.s, e).slot == r.slot && Ent(r.s, e).rc == 1)
    && (r.slot == NO_SLOT ==> !r.hit && !Cached(r.s, e) && Ent(r.s, e).rc == 0)
  }

  lemma DemandEffect(s: State, e: nat)
    requires Solo(s) && e < s.nExpert
    ensures Shape(s) && |s.layers[0].ent| == s.nExpert
    ensures Solo(Acquire(s, 0, e, Demand).s)
    ensures Demanded(s, Acquire(s, 0, e, Demand), e)
  {
    SoloFacts(s);
    AcquireFixed(s, 0, e, Demand);
    AcquireShape(s, 0, e, Demand);
    assert EntryOk(s.layers[0].ent[e], s.nSlot);
    if !Cached(s, e) { DemandMiss(s, e); }
  }

  lemma DemandMiss(s: State, e: nat)
    requires Solo(s) && e < s.nExpert && s.layers[0].ent[e].seg == NotCached
    ensures Shape(s) && |s.layers[0].ent| == s.nExpert
    ensures Demanded(s, Acquire(s, 0, e, Demand), e)
  {
    AcquireLocal(s, 0, e, Demand);
    AcquireShape(s, 0, e, Demand);
    SoloFacts(s);
    var ly := s.layers[0];
    var m := MissLayer(ly, e, s.step);
    MissKeepsLayer(ly, e, s.step, s.nExpert, s.nSlot);
    AfterAllocKeeps(m, s.nSlot, s.ghostMult, e, s.nSlot);
    if s.nExpert <= s.nSlot { AbsentLeavesRoom(s, e); }
  }
}
