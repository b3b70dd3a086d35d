/** Slots are conserved: in every reachable state they are partitioned into the free stack
    and the slots of cached experts, whatever sequence of operations led there. */
module SlotConservation {
  import opened Seqs
  import opened CacheModel
  import opened CacheInvariants

  // ---------------------------------------------------------------------------
  // All layers: slots are partitioned into free, in hand and occupied
  // ---------------------------------------------------------------------------

  function Residents(layers: seq<Layer>): seq<int> {
    seq(|layers|, l requires 0 <= l < |layers| => layers[l].resident)
  }

  function Unpinned(layers: seq<Layer>): seq<int> {
    seq(|layers|, l requires 0 <= l < |layers| => layers[l].resident - layers[l].pinned)
  }

  ghost predicate Occupied(layers: seq<Layer>, x: nat) {
    exists l :: 0 <= l < |layers| && x in Occ(layers[l])
  }

  /** No slot is in two places. hand holds the slots an unfinished operation carries. */
  ghost predicate Apart(layers: seq<Layer>, free: seq<nat>, hand: set<nat>) {
    && NoDup(free)
    && (forall x :: x in free ==> x !in hand)
    && (forall l, x :: 0 <= l < |layers| && x in Occ(layers[l]) ==> x !in free && x !in hand)
    && (forall k, l, x :: 0 <= k < l < |layers| && x in Occ(layers[k]) ==> x !in Occ(layers[l]))
  }

  /** Every slot is somewhere, and nothing else is. */
  ghost predicate Covered(layers: seq<Layer>, free: seq<nat>, hand: set<nat>, nSlot: nat) {
    && (forall x :: x in free || x in hand ==> x < nSlot)
    && (forall x :: 0 <= x < nSlot ==> x in free || x in hand || Occupied(layers, x))
    && |free| + |hand| + Sum(Residents(layers)) == nSlot
  }

  ghost predicate Slots(s: State, hand: set<nat>) {
    Apart(s.layers, s.free, hand) && Covered(s.layers, s.free, hand, s.nSlot)
  }

  ghost predicate StatsOk(s: State) {
    && s.stats.hit == s.stats.hitPinned + s.stats.hitSmall + s.stats.hitMain
    && s.stats.promote == s.stats.hitSmall
    && s.stats.admit - s.stats.evict == Sum(Unpinned(s.layers))
  }

  ghost predicate LayersInv(s: State) {
    && |s.layers| == |s.quota|
    && s.nSlot <= NO_SLOT
    && forall l :: 0 <= l < |s.layers| ==> LayerInv(s.layers[l], s.nExpert, s.nSlot)
  }

  /** The invariant, while an operation carries the slots in hand. */
  ghost predicate Mid(s: State, hand: set<nat>) {
    LayersInv(s) && Slots(s, hand) && StatsOk(s)
  }

  /** The invariant of every reachable state. */
  ghost predicate Inv(s: State) { Mid(s, {}) }

  lemma InvTidy(s: State)
    requires LayersInv(s)
    ensures Tidy(s)
  {
  }

  lemma SumsUpdate(layers: seq<Layer>, l: nat, ly: Layer)
    requires l < |layers|
    ensures Sum(Residents(layers[l := ly])) == Sum(Residents(layers)) - layers[l].resident + ly.resident
    ensures Sum(Unpinned(layers[l := ly])) ==
            Sum(Unpinned(layers)) - (layers[l].resident - layers[l].pinned) + (ly.resident - ly.pinned)
  {
    assert Residents(layers[l := ly]) == Residents(layers)[l := ly.resident];
    assert Unpinned(layers[l := ly]) == Unpinned(layers)[l := ly.resident - ly.pinned];
    SumUpdate(Residents(layers), l, ly.resident);
    SumUpdate(Unpinned(layers), l, ly.resident - ly.pinned);
  }

  // -- the three ways a slot moves ----------------------------------------------

  lemma SlotsSame(s: State, l: nat, ly: Layer, hand: set<nat>)
    requires l < |s.layers| && Slots(s, hand)
    requires Occ(ly) == Occ(s.layers[l]) && ly.resident == s.layers[l].resident
    ensures Slots(s.(layers := s.layers[l := ly]), hand)
  {
    var t := s.(layers := s.layers[l := ly]);
    SumsUpdate(s.layers, l, ly);
    forall x | 0 <= x < s.nSlot && Occupied(s.layers, x) ensures Occupied(t.layers, x) {
      var k :| 0 <= k < |s.layers| && x in Occ(s.layers[k]);
      assert x in Occ(t.layers[k]);
    }
  }

  lemma SlotsFreed(s: State, l: nat, ly: Layer, x: nat, hand: set<nat>)
    requires l < |s.layers| && Slots(s, hand) && x < s.nSlot
    requires x in Occ(s.layers[l]) && Occ(ly) == Occ(s.layers[l]) - {x} && ly.resident == s.layers[l].resident - 1
    ensures Slots(s.(layers := s.layers[l := ly], free := s.free + [x]), hand)
  {
    var t := s.(layers := s.layers[l := ly], free := s.free + [x]);
    SumsUpdate(s.layers, l, ly);
    forall y | 0 <= y < s.nSlot && y != x && Occupied(s.layers, y) ensures Occupied(t.layers, y) {
      var k :| 0 <= k < |s.layers| && y in Occ(s.layers[k]);
      assert y in Occ(t.layers[k]);
    }
    assert t.free[|s.free|] == x;
    FreedApart(s.layers, s.free, l, ly, x, hand);
    forall y | y in s.free ensures y in t.free {
      var k :| 0 <= k < |s.free| && s.free[k] == y;
      assert t.free[k] == y;
    }
  }

  lemma FreedApart(layers: seq<Layer>, free: seq<nat>, l: nat, ly: Layer, x: nat, hand: set<nat>)
    requires l < |layers| && Apart(layers, free, hand)
    requires x in Occ(layers[l]) && Occ(ly) == Occ(layers[l]) - {x}
    ensures Apart(layers[l := ly], free + [x], hand)
  {
    AppendNoDup(free, x);
    var after := layers[l := ly];
    forall k, y | 0 <= k < |after| && y in Occ(after[k]) ensures y != x && y in Occ(layers[k]) {
    }
  }

  lemma SlotsPopped(s: State)
    requires Slots(s, {}) && |s.free| > 0
    ensures Slots(PopFree(s).0, {PopFree(s).1}) && PopFree(s).1 < s.nSlot
  {
    var t, x := PopFree(s).0, PopFree(s).1;
    assert s.free == t.free + [x];
    assert x in s.free;
    forall y | y in s.free && y != x ensures y in t.free {
      var k :| 0 <= k < |s.free| && s.free[k] == y;
      assert t.free[k] == y;
    }
  }

  lemma SlotsAdmitted(s: State, l: nat, ly: Layer, x: nat)
    requires l < |s.layers| && Slots(s, {x})
    requires Occ(ly) == Occ(s.layers[l]) + {x} && ly.resident == s.layers[l].resident + 1
    ensures Slots(s.(layers := s.layers[l := ly]), {})
  {
    SumsUpdate(s.layers, l, ly);
    AdmittedCovered(s.layers, s.free, l, ly, x, s.nSlot);
    AdmittedApart(s.layers, s.free, l, ly, x);
  }

  lemma {:induction false} AdmittedCovered(layers: seq<Layer>, free: seq<nat>, l: nat, ly: Layer, x: nat, nSlot: nat)
    requires l < |layers| && Covered(layers, free, {x}, nSlot)
    requires Occ(ly) == Occ(layers[l]) + {x}
    requires Sum(Residents(layers[l := ly])) == Sum(Residents(layers)) + 1
    ensures Covered(layers[l := ly], free, {}, nSlot)
  {
    forall y | 0 <= y < nSlot ensures y in free || Occupied(layers[l := ly], y) {
      assert y in free || y in {x} || Occupied(layers, y);
      AdmittedOccupied(layers, l, ly, x, y);
    }
  }

  lemma {:induction false} AdmittedOccupied(layers: seq<Layer>, l: nat, ly: Layer, x: nat, y: nat)
    requires l < |layers| && Occ(ly) == Occ(layers[l]) + {x}
    ensures y == x || Occupied(layers, y) ==> Occupied(layers[l := ly], y)
  {
    if y == x {
      assert y in Occ(layers[l := ly][l]);
    } else if Occupied(layers, y) {
      var k :| 0 <= k < |layers| && y in Occ(layers[k]);
      assert y in Occ(layers[l := ly][k]);
    }
  }

  lemma AdmittedApart(layers: seq<Layer>, free: seq<nat>, l: nat, ly: Layer, x: nat)
    requires l < |layers| && Apart(layers, free, {x})
    requires Occ(ly) == Occ(layers[l]) + {x}
    ensures Apart(layers[l := ly], free, {})
  {
    var after := layers[l := ly];
    forall j, k, y | 0 <= j < k < |after| && y in Occ(after[j]) ensures y !in Occ(after[k]) {
      assert y in Occ(layers[j]) || y == x;
    }
  }

  // ---------------------------------------------------------------------------
  // Every operation keeps the invariant
  // ---------------------------------------------------------------------------

  lemma EvictOneKeeps(s: State, l: nat)
    requires Inv(s) && l < |s.layers|
    ensures Shape(s) && Inv(EvictOne(s, l).0)
    ensures EvictOne(s, l).1 <==> HasIdle(s.layers[l])
    ensures !EvictOne(s, l).1 ==> EvictOne(s, l).0 == s
    ensures EvictOne(s, l).1 ==>
      Evicts(s.layers[l], Evicted(EvictOne(s, l).0.layers[l], Some(s.layers[l].ent[Victim(s.layers[l]).value].slot)),
             Victim(s.layers[l]).value, s.nExpert, s.nSlot)
  {
    var ly := s.layers[l];
    var gmax := s.quota[l] * s.ghostMult;
    EvictKeepsLayer(ly, gmax, s.nExpert, s.nSlot);
    var ev := EvictLayer(ly, gmax);
    if ev.freed.Some? {
      assert ev == Evicted(ev.ly, Some(ev.freed.value));
      EvictedKeeps(s, l, ev, Victim(ly).value);
    } else {
      assert s.layers[l := ly] == s.layers;
    }
  }

  /** An eviction from one layer, with the freed slot pushed and the eviction counted. */
  lemma {:induction false} EvictedKeeps(s: State, l: nat, ev: Evicted, v: nat)
    requires Inv(s) && l < |s.layers| && Evicts(s.layers[l], ev, v, s.nExpert, s.nSlot)
    ensures Inv(s.(layers := s.layers[l := ev.ly], free := s.free + [ev.freed.value],
                   stats := s.stats.(evict := s.stats.evict + 1)))
  {
    assert EntryOk(s.layers[l].ent[v], s.nSlot);
    SlotsFreed(s, l, ev.ly, ev.freed.value, {});
    SumsUpdate(s.layers, l, ev.ly);
  }

  lemma AllocKeeps(s: State, l: nat)
    requires Inv(s) && l < |s.layers|
    ensures Shape(s)
    ensures var (a, x) := AllocSlot(s, l);
      && (x == NO_SLOT ==> Inv(a))
      && (x != NO_SLOT ==> x < s.nSlot && Mid(a, {x}))
  {
    EvictOneKeeps(s, l);
    var full := s.layers[l].resident >= s.quota[l];
    var r := if full then EvictOne(s, l) else (s, true);
    if r.1 {
      TakeSlotKeeps(r.0, l);
    }
  }

  lemma TakeSlotKeeps(s: State, l: nat)
    requires Inv(s) && l < |s.layers|
    ensures Shape(s)
    ensures var (a, x) := TakeSlot(s, l);
      && (x == NO_SLOT ==> Inv(a))
      && (x != NO_SLOT ==> x < s.nSlot && Mid(a, {x}))
  {
    if |s.free| > 0 {
      SlotsPopped(s);
    } else {
      var v := VictimLayer(s, l);
      EvictOneKeeps(s, v);
      var r := EvictOne(s, v);
      if r.1 { SlotsPopped(r.0); }
    }
  }

  lemma HitKeeps(s: State, l: nat, e: nat, o: Origin)
    requires Inv(s) && l < |s.layers| && e < s.nExpert && s.layers[l].ent[e].seg != NotCached
    ensures Shape(s) && Inv(Acquire(s, l, e, o).s)
  {
    var ly := s.layers[l];
    HitKeepsLayer(ly, e, s.step, s.nExpert, s.nSlot);
    SlotsSame(s, l, HitLayer(ly, e, s.step), {});
    SumsUpdate(s.layers, l, HitLayer(ly, e, s.step));
  }

  lemma MissKeeps(s: State, l: nat, e: nat)
    requires Inv(s) && l < |s.layers| && e < s.nExpert && s.layers[l].ent[e].seg == NotCached
    ensures Shape(s) && Inv(MissState(s, l, e))
  {
    var ly := s.layers[l];
    MissKeepsLayer(ly, e, s.step, s.nExpert, s.nSlot);
    SlotsSame(s, l, MissLayer(ly, e, s.step), {});
    SumsUpdate(s.layers, l, MissLayer(ly, e, s.step));
  }

  lemma AdmitKeeps(s: State, l: nat, e: nat, x: nat, o: Origin, wasGhost: bool)
    requires x < s.nSlot && Mid(s, {x}) && l < |s.layers| && e < s.nExpert
    requires s.layers[l].ent[e].seg == NotCached && e !in s.layers[l].ghosts && s.layers[l].ent[e].freq == 1
    ensures Shape(s) && Inv(AdmitState(s, l, e, x, o, wasGhost))
  {
    var ly := s.layers[l];
    AdmitKeepsLayer(ly, e, x, o, wasGhost, s.nExpert, s.nSlot);
    SlotsAdmitted(s, l, AdmitLayer(ly, e, x, o, wasGhost), x);
    SumsUpdate(s.layers, l, AdmitLayer(ly, e, x, o, wasGhost));
  }

  /** Expert e of layer l is neither cached nor remembered. */
  ghost predicate Absent(s: State, l: nat, e: nat) {
    && l < |s.layers| && e < |s.layers[l].ent|
    && s.layers[l].ent[e].seg == NotCached && e !in s.layers[l].ghosts
  }

  /** Evicting to make room does not touch an expert that is not cached, nor bring its
      ghost back. */
  lemma EvictLayerLeaves(ly: Layer, gmax: nat, e: nat)
    requires LayerShape(ly, |ly.ent|) && e < |ly.ent|
    requires e !in ly.small && e !in ly.main && e !in ly.ghosts
    ensures EvictLayer(ly, gmax).ly.ent[e] == ly.ent[e]
    ensures e !in EvictLayer(ly, gmax).ly.ghosts
  {
  }

  lemma EvictOneLeaves(s: State, v: nat, l: nat, e: nat)
    requires Inv(s) && v < |s.layers| && Absent(s, l, e)
    ensures Shape(s)
    ensures var r := EvictOne(s, v).0;
      Absent(r, l, e) && r.layers[l].ent[e] == s.layers[l].ent[e]
  {
    InvTidy(s);
    AbsentUnqueued(s, l, e);
    EvictLeaves(s, v, l, e);
  }

  lemma {:induction false} EvictLeaves(s: State, v: nat, l: nat, e: nat)
    requires Shape(s) && v < |s.layers| && Absent(s, l, e)
    requires e !in s.layers[l].small && e !in s.layers[l].main
    ensures var r := EvictOne(s, v).0;
      Absent(r, l, e) && r.layers[l].ent[e] == s.layers[l].ent[e]
  {
    EvictShape(s, v);
    if v == l { EvictLayerLeaves(s.layers[l], s.quota[l] * s.ghostMult, e); }
  }

  lemma {:induction false} AbsentUnqueued(s: State, l: nat, e: nat)
    requires Inv(s) && Absent(s, l, e)
    ensures LayerShape(s.layers[l], |s.layers[l].ent|)
    ensures e !in s.layers[l].small && e !in s.layers[l].main && e !in s.layers[l].ghosts
  {
    assert Placed(s.layers[l], e);
  }

  lemma TakeSlotLeaves(s: State, l: nat, e: nat)
    requires Inv(s) && Absent(s, l, e)
    ensures Shape(s)
    ensures var r := TakeSlot(s, l).0;
      Absent(r, l, e) && r.layers[l].ent[e] == s.layers[l].ent[e]
  {
    if |s.free| == 0 {
      EvictOneLeaves(s, VictimLayer(s, l), l, e);
    }
  }

  lemma AllocLeaves(s: State, l: nat, e: nat)
    requires Inv(s) && Absent(s, l, e)
    ensures Shape(s)
    ensures var r := AllocSlot(s, l).0;
      Absent(r, l, e) && r.layers[l].ent[e] == s.layers[l].ent[e]
  {
    if s.layers[l].resident >= s.quota[l] {
      EvictOneLeaves(s, l, l, e);
      EvictOneKeeps(s, l);
      if EvictOne(s, l).1 { TakeSlotLeaves(EvictOne(s, l).0, l, e); }
    } else {
      TakeSlotLeaves(s, l, e);
    }
  }

  /** Any request, from any origin, keeps the invariant: slots conserved, queues and
      segments in step, statistics balanced. */
  lemma AcquireKeeps(s: State, l: nat, e: nat, o: Origin)
    requires Inv(s) && l < |s.layers| && e < s.nExpert
    ensures Shape(s) && Inv(Acquire(s, l, e, o).s)
  {
    if s.layers[l].ent[e].seg != NotCached {
      HitKeeps(s, l, e, o);
    } else {
      MissKeeps(s, l, e);
      var m := MissState(s, l, e);
      MissKeepsLayer(s.layers[l], e, s.step, s.nExpert, s.nSlot);
      AllocKeeps(m, l);
      AllocLeaves(m, l, e);
      var (a, x) := AllocSlot(m, l);
      if o != Sweep && x != NO_SLOT {
        AdmitKeeps(a, l, e, x, o, e in s.layers[l].ghosts);
      }
    }
  }

  lemma SetEntryKeeps(s: State, l: nat, e: nat, en: Entry)
    requires Inv(s) && l < |s.layers| && e < s.nExpert
    requires SameButUse(en, s.layers[l].ent[e]) && EntryOk(en, s.nSlot)
    ensures Inv(SetEntry(s, l, e, en))
  {
    var ly := s.layers[l];
    var t := ly.(ent := ly.ent[e := en]);
    SetEntryLayer(ly, e, en, s.nExpert, s.nSlot);
    SlotsSame(s, l, t, {});
    SumsUpdate(s.layers, l, t);
  }

  lemma {:induction false} SetEntryLayer(ly: Layer, e: nat, en: Entry, n: nat, nSlot: nat)
    requires LayerInv(ly, n, nSlot) && e < n && SameButUse(en, ly.ent[e]) && EntryOk(en, nSlot)
    ensures var t := ly.(ent := ly.ent[e := en]);
      LayerInv(t, n, nSlot) && Occ(t) == Occ(ly)
  {
    var t := ly.(ent := ly.ent[e := en]);
    forall d | 0 <= d < n ensures EntryOk(t.ent[d], nSlot) && Placed(t, d) {
      assert Placed(ly, d) && EntryOk(ly.ent[d], nSlot);
    }
    assert PinnedSet(t.ent) == PinnedSet(ly.ent);
    SameSlotsSameOcc(ly, t);
  }

  /** Same slot and segment. */
  predicate SameButUse(a: Entry, b: Entry) {
    a.slot == b.slot && a.seg == b.seg
  }

  lemma ReleaseKeeps(s: State, l: nat, e: nat)
    requires Inv(s) && l < |s.layers| && e < s.nExpert
    ensures Inv(Release(s, l, e))
  {
    var en := s.layers[l].ent[e];
    assert EntryOk(en, s.nSlot);
    if en.rc > 0 { SetEntryKeeps(s, l, e, en.(rc := en.rc - 1)); }
  }

  /** Marking an expert ready keeps the invariant exactly when it is cached: mark_resident
      does not check that, and would leave an absent expert flagged as ready. */
  lemma MarkResidentKeeps(s: State, l: nat, e: nat, nbytes: nat)
    requires Inv(s) && l < |s.layers| && e < s.nExpert
    ensures Inv(MarkResident(s, l, e, nbytes)) <==> s.layers[l].ent[e].seg != NotCached
  {
    var en := s.layers[l].ent[e];
    assert EntryOk(en, s.nSlot);
    if en.seg != NotCached && !en.resident {
      SetEntryKeeps(s, l, e, en.(resident := true));
    } else if en.seg == NotCached {
      var t := MarkResident(s, l, e, nbytes);
      assert !EntryOk(t.layers[l].ent[e], s.nSlot);
    }
  }
}
