/** With fixed quotas and no pins, a cache of n layers answers exactly as n caches of one
    layer each, layer l having its quota as slot count. The slot numbers differ; nothing
    else does. */
module LayerIsolation {
  import opened Seqs
  import opened CacheModel
  import opened CacheInvariants
  import opened SlotConservation
  import opened CacheReachability
  import QuotaModel

  // ---------------------------------------------------------------------------
  // Twins: layers that agree on everything but slot numbers
  // ---------------------------------------------------------------------------

  predicate SameButSlot(a: Entry, b: Entry) { a == b.(slot := a.slot) }

  ghost predicate TwinEnt(a: seq<Entry>, b: seq<Entry>) {
    |a| == |b| && forall e :: 0 <= e < |a| ==> SameButSlot(a[e], b[e])
  }

  ghost predicate Twin(a: Layer, b: Layer) {
    && TwinEnt(a.ent, b.ent)
    && a.small == b.small && a.main == b.main && a.ghosts == b.ghosts
    && a.ghostHits == b.ghostHits && a.resident == b.resident && a.pinned == b.pinned
  }

  lemma TwinScans(q: seq<nat>, a: seq<Entry>, b: seq<Entry>)
    requires TwinEnt(a, b) && QueueIn(q, |a|)
    ensures FirstIdle(q, a) == FirstIdle(q, b) && FirstCold(q, a) == FirstCold(q, b)
  {
    assert forall k :: 0 <= k < |q| ==> SameButSlot(a[q[k]], b[q[k]]);
  }

  lemma TwinAges(q: seq<nat>, a: seq<Entry>, b: seq<Entry>)
    requires TwinEnt(a, b)
    ensures TwinEnt(Age(a, q), Age(b, q))
  {
    forall e | 0 <= e < |a| ensures SameButSlot(Age(a, q)[e], Age(b, q)[e]) {
      assert SameButSlot(a[e], b[e]);
    }
  }

  lemma TwinDrops(a: Layer, b: Layer, e: nat, gmax: nat)
    requires Twin(a, b) && e < |a.ent| == |a.slot| == |b.slot|
    ensures Twin(Drop(a, e, gmax), Drop(b, e, gmax))
  {
    assert SameButSlot(a.ent[e], b.ent[e]);
  }

  /** Eviction picks the same victim and leaves twins behind. */
  lemma TwinEvicts(a: Layer, b: Layer, gmax: nat)
    requires Twin(a, b) && LayerShape(a, |a.ent|) && LayerShape(b, |b.ent|)
    ensures Twin(EvictLayer(a, gmax).ly, EvictLayer(b, gmax).ly)
    ensures EvictLayer(a, gmax).freed.Some? <==> EvictLayer(b, gmax).freed.Some?
  {
    TwinScans(a.small, a.ent, b.ent);
    TwinScans(a.main, a.ent, b.ent);
    var i := FirstIdle(a.small, a.ent);
    var j := FirstCold(a.main, a.ent);
    var k := FirstIdle(a.main, a.ent);
    if i < |a.small| {
      var cut := Rotate(a.small, i);
      TwinDrops(a.(small := cut), b.(small := cut), a.small[i], gmax);
    } else if j < |a.main| {
      var cut := Rotate(a.main, j);
      TwinAges(a.main[..j], a.ent, b.ent);
      TwinDrops(a.(ent := Age(a.ent, a.main[..j]), main := cut), b.(ent := Age(b.ent, a.main[..j]), main := cut), a.main[j], gmax);
    } else if k < |a.main| {
      var cut := Rotate(a.main, k);
      TwinAges(a.main, a.ent, b.ent);
      TwinDrops(a.(ent := Age(a.ent, a.main), main := cut), b.(ent := Age(b.ent, a.main), main := cut), a.main[k], gmax);
    }
  }

  // ---------------------------------------------------------------------------
  // Layers within quota
  // ---------------------------------------------------------------------------

  /** Quotas add up to the slots, no layer is over its quota or pinned. */
  ghost predicate Fixed(s: State) {
    && Inv(s) && Sum(s.quota) == s.nSlot
    && forall l :: 0 <= l < |s.layers| ==> s.layers[l].resident <= s.quota[l] && s.layers[l].pinned == 0
  }

  lemma {:induction false} SumBelow(a: seq<int>, b: seq<int>, i: nat)
    requires |a| == |b| && i < |a| && a[i] < b[i]
    requires forall k :: 0 <= k < |a| ==> a[k] <= b[k]
    ensures Sum(a) < Sum(b)
  {
    var n := |a| - 1;
    if i == n { SumMono(a[..n], b[..n]); } else { SumBelow(a[..n], b[..n], i); }
  }

  /** A layer below its quota always finds a free slot, so the branch that takes one from
      another layer is never reached. */
  lemma NeverSteals(s: State, l: nat)
    requires Fixed(s) && l < |s.layers| && s.layers[l].resident < s.quota[l]
    ensures |s.free| > 0
  {
    SumBelow(Residents(s.layers), s.quota, l);
  }

  /** At its quota, a layer's allocation is its own eviction followed by taking the slot
      that came free. */
  lemma AllocAtQuota(s: State, l: nat)
    requires Shape(s) && l < |s.layers| && s.layers[l].resident >= s.quota[l]
    ensures var ev := EvictLayer(s.layers[l], s.quota[l] * s.ghostMult);
      AllocSlot(s, l) ==
        match ev.freed
        case None => (s.(layers := s.layers[l := ev.ly]), NO_SLOT)
        case Some(x) => (s.(layers := s.layers[l := ev.ly], stats := s.stats.(evict := s.stats.evict + 1)), x)
  {
    var ev := EvictLayer(s.layers[l], s.quota[l] * s.ghostMult);
    if ev.freed.Some? {
      assert (s.free + [ev.freed.value])[..|s.free|] == s.free;
    }
  }

  /** The layer an allocation leaves behind, and whether it found a slot. */
  function AfterAlloc(ly: Layer, quota: nat, ghostMult: nat): (r: (Layer, bool))
    requires LayerShape(ly, |ly.ent|)
  {
    if ly.resident < quota then (ly, true)
    else var ev := EvictLayer(ly, quota * ghostMult); (ev.ly, ev.freed.Some?)
  }

  /** Allocation is local: it changes only the requesting layer, as that layer alone
      determines. */
  lemma AllocLocal(s: State, l: nat)
    requires Fixed(s) && l < |s.layers|
    ensures Shape(s) && LayerShape(s.layers[l], |s.layers[l].ent|)
    ensures var (a, x) := AllocSlot(s, l);
      var (ly, found) := AfterAlloc(s.layers[l], s.quota[l], s.ghostMult);
      && a.layers == s.layers[l := ly] && (x != NO_SLOT <==> found)
      && a.quota == s.quota && a.nExpert == s.nExpert && a.ghostMult == s.ghostMult && a.step == s.step
  {
    InvTidy(s);
    if s.layers[l].resident < s.quota[l] {
      NeverSteals(s, l);
      TopInRange(s);
      assert s.layers[l := s.layers[l]] == s.layers;
    } else {
      AllocAtQuota(s, l);
      FreedInRange(s, l);
    }
  }

  lemma TopInRange(s: State)
    requires Inv(s) && |s.free| > 0
    ensures s.free[|s.free| - 1] < NO_SLOT
  {
    assert s.free[|s.free| - 1] in s.free;
  }

  lemma FreedInRange(s: State, l: nat)
    requires Inv(s) && l < |s.layers|
    ensures LayerShape(s.layers[l], |s.layers[l].ent|)
    ensures var ev := EvictLayer(s.layers[l], s.quota[l] * s.ghostMult);
      ev.freed.Some? ==> ev.freed.value < NO_SLOT
  {
    EvictKeepsLayer(s.layers[l], s.quota[l] * s.ghostMult, s.nExpert, s.nSlot);
    var v := Victim(s.layers[l]);
    if v.Some? { assert EntryOk(s.layers[l].ent[v.value], s.nSlot); }
  }

  // ---------------------------------------------------------------------------
  // One request, seen by its layer alone
  // ---------------------------------------------------------------------------

  /** The answer to a request, without the slot number: hit, and whether a slot was given. */
  datatype Reply = Reply(hit: bool, served: bool)

  /** A request as a function of its layer only (slot numbers aside). */
  function Local(ly: Layer, e: nat, o: Origin, x: nat, quota: nat, ghostMult: nat, step: nat): (r: (Layer, Reply))
    requires LayerShape(ly, |ly.ent|) && e < |ly.ent|
  {
    if ly.ent[e].seg != NotCached then (HitLayer(ly, e, step), Reply(true, true))
    else
      var m := MissLayer(ly, e, step);
      MissLayerShape(ly, e, step);
      if o == Sweep then (m, Reply(false, false))
      else
        var (a, found) := AfterAlloc(m, quota, ghostMult);
        AfterAllocShape(m, quota, ghostMult);
        if found then (AdmitLayer(a, e, x, o, e in ly.ghosts), Reply(false, true)) else (a, Reply(false, false))
  }

  lemma MissLayerShape(ly: Layer, e: nat, step: nat)
    requires LayerShape(ly, |ly.ent|) && e < |ly.ent|
    ensures LayerShape(MissLayer(ly, e, step), |ly.ent|)
  {
    assert forall x :: x in Erase(ly.ghosts, e) ==> x in ly.ghosts;
  }

  lemma AfterAllocShape(ly: Layer, quota: nat, ghostMult: nat)
    requires LayerShape(ly, |ly.ent|)
    ensures LayerShape(AfterAlloc(ly, quota, ghostMult).0, |ly.ent|)
  {
    EvictLayerShape(ly, quota * ghostMult);
  }

  lemma MissFixed(s: State, l: nat, e: nat)
    requires Fixed(s) && l < |s.layers| && e < s.nExpert && s.layers[l].ent[e].seg == NotCached
    ensures Shape(s) && Fixed(MissState(s, l, e))
  {
    MissKeeps(s, l, e);
  }

  /** A request changes nothing outside its layer, and its layer only as that layer alone
      determines. */
  lemma AcquireLocal(s: State, l: nat, e: nat, o: Origin)
    requires Fixed(s) && l < |s.layers| && e < s.nExpert
    ensures Shape(s) && LayerShape(s.layers[l], |s.layers[l].ent|) && e < |s.layers[l].ent|
    ensures var r := Acquire(s, l, e, o);
      var (ly, reply) := Local(s.layers[l], e, o, r.slot, s.quota[l], s.ghostMult, s.step);
      && r.s.layers == s.layers[l := ly]
      && Reply(r.hit, r.slot != NO_SLOT) == reply
      && r.s.quota == s.quota && r.s.nExpert == s.nExpert && r.s.ghostMult == s.ghostMult && r.s.step == s.step
  {
    InvTidy(s);
    assert EntryOk(s.layers[l].ent[e], s.nSlot);
    if s.layers[l].ent[e].seg == NotCached {
      MissLocal(s, l, e, o);
    }
  }

  lemma MissLocal(s: State, l: nat, e: nat, o: Origin)
    requires Fixed(s) && l < |s.layers| && e < s.nExpert && s.layers[l].ent[e].seg == NotCached
    ensures Shape(s) && LayerShape(s.layers[l], |s.layers[l].ent|) && e < |s.layers[l].ent|
    ensures var r := Acquire(s, l, e, o);
      var (ly, reply) := Local(s.layers[l], e, o, r.slot, s.quota[l], s.ghostMult, s.step);
      && r.s.layers == s.layers[l := ly]
      && Reply(r.hit, r.slot != NO_SLOT) == reply
      && r.s.quota == s.quota && r.s.nExpert == s.nExpert && r.s.ghostMult == s.ghostMult && r.s.step == s.step
  {
    MissFixed(s, l, e);
    MissLayerShape(s.layers[l], e, s.step);
    var m := MissState(s, l, e);
    if o != Sweep {
      AllocLocal(m, l);
    }
  }

  /** Twins answer a request alike and stay twins. */
  lemma {:induction false} LocalTwin(a: Layer, b: Layer, e: nat, o: Origin, x: nat, y: nat, quota: nat, ghostMult: nat, step: nat)
    requires Twin(a, b) && LayerShape(a, |a.ent|) && LayerShape(b, |b.ent|) && e < |a.ent|
    ensures var (p, r) := Local(a, e, o, x, quota, ghostMult, step);
      var (q, t) := Local(b, e, o, y, quota, ghostMult, step);
      Twin(p, q) && r == t
  {
    assert SameButSlot(a.ent[e], b.ent[e]);
    if a.ent[e].seg == NotCached {
      var m, n := MissLayer(a, e, step), MissLayer(b, e, step);
      MissTwin(a, b, e, step);
      if o != Sweep {
        AllocTwin(m, n, quota, ghostMult);
        AdmitTwin(AfterAlloc(m, quota, ghostMult).0, AfterAlloc(n, quota, ghostMult).0, e, o, x, y, e in a.ghosts);
      }
    }
  }

  lemma {:induction false} MissTwin(a: Layer, b: Layer, e: nat, step: nat)
    requires Twin(a, b) && LayerShape(a, |a.ent|) && LayerShape(b, |b.ent|) && e < |a.ent|
    ensures var m, n := MissLayer(a, e, step), MissLayer(b, e, step);
      Twin(m, n) && LayerShape(m, |a.ent|) && LayerShape(n, |b.ent|)
  {
    assert SameButSlot(a.ent[e], b.ent[e]);
    MissLayerShape(a, e, step);
    MissLayerShape(b, e, step);
  }

  lemma {:induction false} AllocTwin(m: Layer, n: Layer, quota: nat, ghostMult: nat)
    requires Twin(m, n) && LayerShape(m, |m.ent|) && LayerShape(n, |n.ent|)
    ensures var (p, r) := AfterAlloc(m, quota, ghostMult);
      var (q, t) := AfterAlloc(n, quota, ghostMult);
      Twin(p, q) && r == t && LayerShape(p, |m.ent|) && LayerShape(q, |n.ent|)
  {
    if m.resident >= quota { TwinEvicts(m, n, quota * ghostMult); }
    AfterAllocShape(m, quota, ghostMult);
    AfterAllocShape(n, quota, ghostMult);
  }

  lemma {:induction false} AdmitTwin(a: Layer, b: Layer, e: nat, o: Origin, x: nat, y: nat, wasGhost: bool)
    requires Twin(a, b) && e < |a.ent| == |a.slot| == |b.slot|
    ensures Twin(AdmitLayer(a, e, x, o, wasGhost), AdmitLayer(b, e, y, o, wasGhost))
  {
    assert SameButSlot(a.ent[e], b.ent[e]);
  }

  lemma EvictCounts(ly: Layer, gmax: nat)
    requires LayerShape(ly, |ly.ent|)
    ensures var ev := EvictLayer(ly, gmax);
      ev.ly.resident == ly.resident - (if ev.freed.Some? then 1 else 0) && ev.ly.pinned == ly.pinned
  {
  }

  /** A layer that is not over its quota stays so. */
  lemma LocalQuota(ly: Layer, e: nat, o: Origin, x: nat, quota: nat, ghostMult: nat, step: nat)
    requires LayerShape(ly, |ly.ent|) && e < |ly.ent| && ly.resident <= quota
    ensures var r := Local(ly, e, o, x, quota, ghostMult, step).0;
      r.resident <= quota && r.pinned == ly.pinned
  {
    if ly.ent[e].seg == NotCached {
      MissLayerShape(ly, e, step);
      EvictCounts(MissLayer(ly, e, step), quota * ghostMult);
    }
  }

  lemma AcquireFixed(s: State, l: nat, e: nat, o: Origin)
    requires Fixed(s) && l < |s.layers| && e < s.nExpert
    ensures Shape(s) && Fixed(Acquire(s, l, e, o).s)
  {
    AcquireKeeps(s, l, e, o);
    AcquireShape(s, l, e, o);
    AcquireLocal(s, l, e, o);
    LocalQuota(s.layers[l], e, o, Acquire(s, l, e, o).slot, s.quota[l], s.ghostMult, s.step);
  }

  // ---------------------------------------------------------------------------
  // The bisimulation
  // ---------------------------------------------------------------------------

  /** t is layer l of s run alone: one layer, as many slots as s gives layer l. */
  ghost predicate Alone(s: State, l: nat, t: State)
    requires l < |s.layers| == |s.quota|
  {
    && Fixed(t) && |t.layers| == 1 && t.quota == [s.quota[l]]
    && t.nExpert == s.nExpert && t.ghostMult == s.ghostMult && t.step == s.step
    && Twin(s.layers[l], t.layers[0])
  }

  ghost predicate Bisimilar(s: State, ts: seq<State>) {
    && Fixed(s) && |ts| == |s.layers|
    && forall l :: 0 <= l < |ts| ==> Alone(s, l, ts[l])
  }

  function Answered(r: Answer): Reply { Reply(r.hit, r.slot != NO_SLOT) }

  /** The same request to the whole cache and to the cache of its layer gets the same
      answer, and the bisimulation continues. */
  lemma BisimilarRequest(s: State, ts: seq<State>, l: nat, e: nat, o: Origin)
    requires Bisimilar(s, ts) && l < |s.layers| && e < s.nExpert
    ensures Shape(s) && Shape(ts[l])
    ensures Answered(Acquire(s, l, e, o)) == Answered(Acquire(ts[l], 0, e, o))
    ensures Bisimilar(Acquire(s, l, e, o).s, ts[l := Acquire(ts[l], 0, e, o).s])
  {
    var t := ts[l];
    assert Alone(s, l, t);
    AloneRequest(s, l, t, e, o);
    AcquireFixed(s, l, e, o);
    var r := Acquire(s, l, e, o).s;
    AcquireLocal(s, l, e, o);
    AloneElsewhere(s, r, ts, l);
  }

  /** The other layers stay with their own caches. */
  lemma {:induction false} AloneElsewhere(s: State, r: State, ts: seq<State>, l: nat)
    requires Bisimilar(s, ts) && l < |s.layers| && |r.layers| == |s.layers| && r.layers == s.layers[l := r.layers[l]]
    requires r.quota == s.quota && r.nExpert == s.nExpert && r.ghostMult == s.ghostMult && r.step == s.step
    ensures |s.quota| == |s.layers| && forall k :: 0 <= k < |ts| && k != l ==> Alone(r, k, ts[k])
  {
    forall k | 0 <= k < |ts| && k != l ensures Alone(r, k, ts[k]) {
      AloneKept(s, r, k, ts[k]);
    }
  }

  lemma AloneRequest(s: State, l: nat, t: State, e: nat, o: Origin)
    requires Fixed(s) && l < |s.layers| && e < s.nExpert && Alone(s, l, t)
    ensures Shape(s) && Shape(t)
    ensures Answered(Acquire(s, l, e, o)) == Answered(Acquire(t, 0, e, o))
    ensures var r := Acquire(s, l, e, o).s;
      |r.layers| == |s.layers| && r.quota == s.quota && Alone(r, l, Acquire(t, 0, e, o).s)
  {
    AcquireLocal(s, l, e, o);
    AcquireLocal(t, 0, e, o);
    AcquireFixed(t, 0, e, o);
    LocalTwin(s.layers[l], t.layers[0], e, o, Acquire(s, l, e, o).slot, Acquire(t, 0, e, o).slot,
              s.quota[l], s.ghostMult, s.step);
  }

  /** Releases and arrivals of one layer. */
  function Entrywise(s: State, l: nat, e: nat, op: Op): State
    requires l < |s.layers| && e < |s.layers[l].ent|
  {
    match op
    case Arrived(_, _, nbytes) => MarkResident(s, l, e, nbytes)
    case _ => Release(s, l, e)
  }

  lemma EntrywiseFixed(s: State, l: nat, e: nat, op: Op)
    requires Fixed(s) && l < |s.layers| && e < s.nExpert
    requires op.Arrived? ==> s.layers[l].ent[e].seg != NotCached
    ensures e < |s.layers[l].ent| && Fixed(Entrywise(s, l, e, op))
  {
    if op.Arrived? { MarkResidentKeeps(s, l, e, op.nbytes); } else { ReleaseKeeps(s, l, e); }
    EntrywiseLocal(s, l, e, op);
  }

  lemma EntrywiseLocal(s: State, l: nat, e: nat, op: Op)
    requires l < |s.layers| && e < |s.layers[l].ent|
    ensures var r := Entrywise(s, l, e, op);
      && r.layers == s.layers[l := s.layers[l].(ent := r.layers[l].ent)] && r.quota == s.quota
      && r.nExpert == s.nExpert && r.nSlot == s.nSlot && r.ghostMult == s.ghostMult && r.step == s.step
  {
    assert s.layers[l := s.layers[l]] == s.layers;
  }

  lemma EntrywiseTwin(s: State, l: nat, t: State, e: nat, op: Op)
    requires l < |s.layers| && e < |s.layers[l].ent| && |t.layers| == 1 && Twin(s.layers[l], t.layers[0])
    ensures Twin(Entrywise(s, l, e, op).layers[l], Entrywise(t, 0, e, op).layers[0])
  {
    assert SameButSlot(s.layers[l].ent[e], t.layers[0].ent[e]);
  }

  ghost predicate OneLayer(t: State) { Shape(t) && |t.layers| == 1 }

  /** The same operation on the caches of the single layers. */
  ghost function Split(ts: seq<State>, a: QuotaModel.Adapt, op: Op): (r: seq<State>)
    requires forall l :: 0 <= l < |ts| ==> OneLayer(ts[l])
    requires AdaptOk(a) && (op.StepEnd? || (op.l < |ts| && Allowed(ts[op.l], OnLayer0(op))))
    ensures |r| == |ts|
  {
    if op.StepEnd? then seq(|ts|, l requires 0 <= l < |ts| && OneLayer(ts[l]) => EndStep(ts[l], a))
    else
      assert OneLayer(ts[op.l]);
      ts[op.l := Apply(ts[op.l], a, OnLayer0(op))]
  }

  /** The operation addressed to a one-layer cache. */
  function OnLayer0(op: Op): Op {
    match op
    case Request(_, e, o) => Request(0, e, o)
    case Arrived(_, e, nbytes) => Arrived(0, e, nbytes)
    case Done(_, e) => Done(0, e)
    case StepEnd => StepEnd
  }

  lemma SplitOk(s: State, ts: seq<State>, op: Op)
    requires Bisimilar(s, ts) && Allowed(s, op)
    ensures forall l :: 0 <= l < |ts| ==> OneLayer(ts[l])
    ensures op.StepEnd? || (op.l < |ts| && Allowed(ts[op.l], OnLayer0(op)))
  {
    forall l | 0 <= l < |ts| ensures OneLayer(ts[l]) {
      assert Alone(s, l, ts[l]);
    }
    if op.Arrived? {
      assert Alone(s, op.l, ts[op.l]);
      assert SameButSlot(s.layers[op.l].ent[op.e], ts[op.l].layers[0].ent[op.e]);
    }
  }

  /** One operation of a run: the bisimulation continues. */
  lemma BisimilarStep(s: State, ts: seq<State>, a: QuotaModel.Adapt, op: Op)
    requires Bisimilar(s, ts) && |s.layers| > 0 && AdaptOk(a) && !a.on && Allowed(s, op)
    ensures Shape(s)
    ensures (forall l :: 0 <= l < |ts| ==> OneLayer(ts[l]))
    ensures op.StepEnd? || (op.l < |ts| && Allowed(ts[op.l], OnLayer0(op)))
    ensures Bisimilar(Apply(s, a, op), Split(ts, a, op))
    ensures op.Request? ==> Answered(Acquire(s, op.l, op.e, op.o)) == Answered(Acquire(ts[op.l], 0, op.e, op.o))
  {
    SplitOk(s, ts, op);
    match op
    case Request(l, e, o) => BisimilarRequest(s, ts, l, e, o);
    case StepEnd => BisimilarTick(s, ts, a);
    case Arrived(l, e, nbytes) => BisimilarEntry(s, ts, l, e, op);
    case Done(l, e) => BisimilarEntry(s, ts, l, e, op);
  }

  lemma {:induction false} BisimilarEntry(s: State, ts: seq<State>, l: nat, e: nat, op: Op)
    requires Bisimilar(s, ts) && l < |s.layers| && e < s.nExpert
    requires op.Arrived? ==> s.layers[l].ent[e].seg != NotCached
    ensures e < |s.layers[l].ent| && Shape(ts[l]) && |ts[l].layers| == 1 && e < |ts[l].layers[0].ent|
    ensures Bisimilar(Entrywise(s, l, e, op), ts[l := Entrywise(ts[l], 0, e, op)])
  {
    assert Alone(s, l, ts[l]);
    EntrywiseFixed(s, l, e, op);
    EntrywiseLocal(s, l, e, op);
    AloneEntry(s, l, ts[l], e, op);
    AloneElsewhere(s, Entrywise(s, l, e, op), ts, l);
  }

  lemma {:induction false} AloneEntry(s: State, l: nat, t: State, e: nat, op: Op)
    requires Fixed(s) && l < |s.layers| && e < s.nExpert && |s.quota| == |s.layers| && Alone(s, l, t)
    requires op.Arrived? ==> s.layers[l].ent[e].seg != NotCached
    ensures e < |s.layers[l].ent| && Shape(t) && |t.layers| == 1 && e < |t.layers[0].ent|
    ensures Alone(Entrywise(s, l, e, op), l, Entrywise(t, 0, e, op))
  {
    InvTidy(s);
    InvTidy(t);
    assert SameButSlot(s.layers[l].ent[e], t.layers[0].ent[e]);
    EntrywiseFixed(t, 0, e, op);
    EntrywiseTwin(s, l, t, e, op);
    EntrywiseLocal(s, l, e, op);
    EntrywiseLocal(t, 0, e, op);
  }

  /** A layer that an operation leaves alone stays the twin of its cache. */
  lemma {:induction false} AloneKept(s: State, r: State, k: nat, t: State)
    requires k < |s.layers| == |s.quota| && |r.layers| == |r.quota| == |s.layers| && Alone(s, k, t)
    requires r.layers[k] == s.layers[k] && r.quota == s.quota
    requires r.nExpert == s.nExpert && r.ghostMult == s.ghostMult && r.step == s.step
    ensures Alone(r, k, t)
  {
  }

  lemma BisimilarTick(s: State, ts: seq<State>, a: QuotaModel.Adapt)
    requires Bisimilar(s, ts) && |s.layers| > 0 && AdaptOk(a) && !a.on
    requires forall l :: 0 <= l < |ts| ==> OneLayer(ts[l])
    ensures Bisimilar(EndStep(s, a), Split(ts, a, StepEnd))
  {
    EndStepKeeps(s, a);
    forall l | 0 <= l < |ts| ensures Alone(EndStep(s, a), l, EndStep(ts[l], a)) {
      assert Alone(s, l, ts[l]);
      EndStepKeeps(ts[l], a);
    }
  }

  // ---------------------------------------------------------------------------
  // Whole runs, from freshly built caches
  // ---------------------------------------------------------------------------

  lemma {:induction false} EvenPrefixSum(q: seq<nat>, base: nat, r: nat)
    requires forall l :: 0 <= l < |q| ==> q[l] == base + (if l < r then 1 else 0)
    ensures Sum(q) == |q| * base + (if |q| < r then |q| else r)
  {
    if |q| > 0 { EvenPrefixSum(q[..|q| - 1], base, r); }
  }

  /** The caches of the single layers, each with its quota as slot count. */
  function InitAlone(nLayer: nat, nExpert: nat, nSlot: nat, ghostMult: nat): seq<State>
    requires nLayer > 0
  {
    seq(nLayer, l requires 0 <= l < nLayer => Init(1, nExpert, EvenQuota(nSlot, nLayer)[l], ghostMult))
  }

  /** The even quotas add up to the slots, differ by at most one, and leading layers have the more. */
  lemma {:induction false} QuotasEven(nSlot: nat, nLayer: nat)
    requires nLayer > 0
    ensures Sum(EvenQuota(nSlot, nLayer)) == nSlot
    ensures var q := EvenQuota(nSlot, nLayer);
      forall k, l :: 0 <= k < l < |q| ==> q[l] <= q[k] <= q[l] + 1
  {
    EvenQuotaSum(nSlot, nLayer);
  }

  lemma {:induction false} EvenQuotaSum(nSlot: nat, nLayer: nat)
    requires nLayer > 0
    ensures Sum(EvenQuota(nSlot, nLayer)) == nSlot
  {
    var base, r := nSlot / nLayer, nSlot % nLayer;
    EvenPrefixSum(EvenQuota(nSlot, nLayer), base, r);
  }

  lemma {:induction false} TermInSum(q: seq<nat>, l: nat)
    requires l < |q|
    ensures q[l] <= Sum(q)
  {
    var n := |q| - 1;
    if l < n { TermInSum(q[..n], l); } else { QuotaModel.SumNonNegative(q[..n]); }
  }

  lemma InitFixed(nLayer: nat, nExpert: nat, nSlot: nat, ghostMult: nat)
    requires nLayer > 0 && nSlot <= NO_SLOT
    ensures Fixed(Init(nLayer, nExpert, nSlot, ghostMult))
  {
    InitInv(nLayer, nExpert, nSlot, ghostMult);
    EvenQuotaSum(nSlot, nLayer);
  }

  lemma InitBisimilar(nLayer: nat, nExpert: nat, nSlot: nat, ghostMult: nat)
    requires nLayer > 0 && nSlot <= NO_SLOT
    ensures Bisimilar(Init(nLayer, nExpert, nSlot, ghostMult), InitAlone(nLayer, nExpert, nSlot, ghostMult))
  {
    var s := Init(nLayer, nExpert, nSlot, ghostMult);
    InitFixed(nLayer, nExpert, nSlot, ghostMult);
    forall l | 0 <= l < nLayer ensures Alone(s, l, Init(1, nExpert, s.quota[l], ghostMult)) {
      EvenQuotaSum(nSlot, nLayer);
      TermInSum(s.quota, l);
      InitFixed(1, nExpert, s.quota[l], ghostMult);
      assert s.quota[l] % 1 == 0;
      assert EvenQuota(s.quota[l], 1) == [s.quota[l]];
    }
  }

  /** split is the run of the single-layer caches on the same operations. */
  ghost predicate IsSplitRun(split: seq<seq<State>>, a: QuotaModel.Adapt, ops: seq<Op>) {
    && |split| == |ops| + 1 && AdaptOk(a)
    && forall i :: 0 <= i < |ops| ==> SplitStep(split[i], a, ops[i], split[i + 1])
  }

  ghost predicate SplitStep(ts: seq<State>, a: QuotaModel.Adapt, op: Op, us: seq<State>) {
    && (forall l :: 0 <= l < |ts| ==> OneLayer(ts[l]))
    && AdaptOk(a) && (op.StepEnd? || (op.l < |ts| && Allowed(ts[op.l], OnLayer0(op))))
    && us == Split(ts, a, op)
  }

  /** Layers are isolated: in every run with fixed quotas and no pins, every state of the
      whole cache is bisimilar to the caches of its layers run alone. */
  lemma {:induction false} RunBisimilar(run: seq<State>, split: seq<seq<State>>, a: QuotaModel.Adapt, ops: seq<Op>,
                                        nLayer: nat, nExpert: nat, nSlot: nat, ghostMult: nat, k: nat)
    requires nLayer > 0 && nSlot <= NO_SLOT && !a.on
    requires IsRun(run, a, ops) && run[0] == Init(nLayer, nExpert, nSlot, ghostMult)
    requires IsSplitRun(split, a, ops) && split[0] == InitAlone(nLayer, nExpert, nSlot, ghostMult)
    requires k < |run|
    ensures Bisimilar(run[k], split[k])
  {
    if k == 0 {
      InitBisimilar(nLayer, nExpert, nSlot, ghostMult);
    } else {
      RunBisimilar(run, split, a, ops, nLayer, nExpert, nSlot, ghostMult, k - 1);
      assert Step(run[k - 1], a, ops[k - 1], run[k]) && SplitStep(split[k - 1], a, ops[k - 1], split[k]);
      BisimilarStep(run[k - 1], split[k - 1], a, ops[k - 1]);
    }
  }

  /** The same answers, request by request: same hits, same misses, same exhaustions. */
  lemma SameAnswers(run: seq<State>, split: seq<seq<State>>, a: QuotaModel.Adapt, ops: seq<Op>,
                    nLayer: nat, nExpert: nat, nSlot: nat, ghostMult: nat, k: nat)
    requires nLayer > 0 && nSlot <= NO_SLOT && !a.on
    requires IsRun(run, a, ops) && run[0] == Init(nLayer, nExpert, nSlot, ghostMult)
    requires IsSplitRun(split, a, ops) && split[0] == InitAlone(nLayer, nExpert, nSlot, ghostMult)
    requires k < |ops| && ops[k].Request?
    ensures Shape(run[k]) && ops[k].l < |run[k].layers| == |split[k]| && Shape(split[k][ops[k].l])
    ensures ops[k].e < run[k].nExpert && ops[k].e < split[k][ops[k].l].nExpert && |split[k][ops[k].l].layers| == 1
    ensures Answered(Acquire(run[k], ops[k].l, ops[k].e, ops[k].o)) ==
            Answered(Acquire(split[k][ops[k].l], 0, ops[k].e, ops[k].o))
  {
    RunBisimilar(run, split, a, ops, nLayer, nExpert, nSlot, ghostMult, k);
    assert Step(run[k], a, ops[k], run[k + 1]) && SplitStep(split[k], a, ops[k], split[k + 1]);
    BisimilarRequest(run[k], split[k], ops[k].l, ops[k].e, ops[k].o);
  }
}
