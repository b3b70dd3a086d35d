/** How often a batch may repeat an expert. The 16-bit refcount comes back to zero at 65536
    references, the expert's slot is then handed to another id of the same batch, and the
    first ids read the wrong weights. */
module RefcountWrap {
  import opened Seqs
  import opened Memory
  import opened CacheModel
  import opened CacheInvariants
  import opened SlotConservation
  import opened LayerIsolation
  import opened Exhaustion
  import opened CachePolicy
  import opened RemapModel
  import opened RemapCalls
  import ExpertSweep

  /** A call that is not split owns every expert. */
  function Every(n: nat): seq<bool> { seq(n, _ => true) }

  // ---------------------------------------------------------------------------
  // One id, followed through the queues of the layer
  // ---------------------------------------------------------------------------

  /** Expert e arrives in slot x, at the back of SMALL. */
  function Arrive(ly: Layer, e: nat, x: nat, step: nat): Layer
    requires e < |ly.ent| == |ly.slot|
  {
    var a := AdmitLayer(MissLayer(ly, e, step), e, x, Demand, false);
    a.(ent := a.ent[e := a.ent[e].(resident := true)])
  }

  /** The id was given slot x. */
  ghost predicate Given(b: Batch, t: Batch, id: nat, x: nat) {
    t.out == b.out + [x] && t.held == b.held + [id] && t.exhausted == b.exhausted
  }

  lemma {:induction false} HitStep(b: Batch, id: nat, nbytes: nat)
    requires Solo(b.c) && OneLayerShape(b.c, b.c.nExpert) && id < b.c.nExpert && Cached(b.c, id)
    ensures Plain(b.c)
    ensures var t := ServeOne(b, id, Every(b.c.nExpert), nbytes);
      Given(b, t, id, Ent(b.c, id).slot) && t.c.layers == [HitLayer(b.c.layers[0], id, b.c.step)]
  {
    SoloPlain(b.c);
    SoloFacts(b.c);
    assert EntryOk(Ent(b.c, id), b.c.nSlot);
  }

  lemma {:induction false} MissStep(b: Batch, id: nat, nbytes: nat) returns (x: nat)
    requires Solo(b.c) && OneLayerShape(b.c, b.c.nExpert) && id < b.c.nExpert && !Cached(b.c, id)
    requires b.c.layers[0].resident < b.c.nSlot && b.c.layers[0].ghosts == []
    ensures Plain(b.c)
    ensures var t := ServeOne(b, id, Every(b.c.nExpert), nbytes);
      Given(b, t, id, x) && t.c.layers == [Arrive(b.c.layers[0], id, x, b.c.step)]
  {
    SoloPlain(b.c);
    SoloFacts(b.c);
    AcquireLocal(b.c, 0, id, Demand);
    x := Acquire(b.c, 0, id, Demand).slot;
    AnswerArrives(b, id, Acquire(b.c, 0, id, Demand), nbytes);
  }

  lemma {:induction false} AnswerArrives(b: Batch, id: nat, r: Answer, nbytes: nat)
    requires OneLayerShape(b.c, b.c.nExpert) && id < b.c.nExpert == |b.c.layers[0].slot| && r.slot != NO_SLOT && !r.hit
    requires r.s.layers == [AdmitLayer(MissLayer(b.c.layers[0], id, b.c.step), id, r.slot, Demand, false)]
    ensures Given(b, RemapModel.Answered(b, id, r, nbytes), id, r.slot)
    ensures RemapModel.Answered(b, id, r, nbytes).c.layers == [Arrive(b.c.layers[0], id, r.slot, b.c.step)]
  {
  }

  // ---------------------------------------------------------------------------
  // The shape the layer keeps
  // ---------------------------------------------------------------------------

  /** Experts 0 and 1 are in MAIN, in this order, each with a second chance; 2, ..., k - 1 are
      in SMALL and in use; nobody else is cached or remembered. */
  ghost predicate Primed(ly: Layer, n: nat, k: nat) {
    && |ly.ent| == |ly.slot| == n && 2 <= k <= n && ly.resident == k
    && ly.main == [0, 1] && ly.ghosts == []
    && (forall d :: d in ly.small ==> 2 <= d < k)
    && (forall d :: 0 <= d < 2 ==> ly.ent[d].seg == Main && ly.ent[d].freq >= 2)
    && (forall d :: 2 <= d < k ==> ly.ent[d].rc > 0)
    && (forall d :: k <= d < n ==> ly.ent[d].seg == NotCached)
  }

  lemma {:induction false} PrimedHit(ly: Layer, n: nat, k: nat, e: nat, step: nat)
    requires Primed(ly, n, k) && e < 2
    ensures Primed(HitLayer(ly, e, step), n, k) && HitLayer(ly, e, step).ent[0].slot == ly.ent[0].slot
  {
  }

  lemma {:induction false} PrimedArrive(ly: Layer, n: nat, k: nat, x: nat, step: nat)
    requires Primed(ly, n, k) && k < n
    ensures Primed(Arrive(ly, k, x, step), n, k + 1) && Arrive(ly, k, x, step).ent[0].slot == ly.ent[0].slot
  {
  }

  /** With every slot taken and expert 0 idle, expert 0 is the one evicted. */
  lemma {:induction false} PrimedEvicts(ly: Layer, n: nat, k: nat, e: nat, step: nat, gmax: nat)
    requires Primed(ly, n, k) && k <= e < n && ly.ent[0].rc == 0 && LayerShape(MissLayer(ly, e, step), n)
    ensures EvictLayer(MissLayer(ly, e, step), gmax).freed == Some(ly.ent[0].slot)
  {
    var m := MissLayer(ly, e, step);
    forall i | 0 <= i < |m.small| ensures !Idle(m.ent[m.small[i]]) { assert m.small[i] in ly.small; }
    assert !Cold(m.ent[0]) && !Cold(m.ent[1]);
    assert FirstCold(m.main, m.ent) == |m.main|;
    assert Idle(m.ent[m.main[0]]);
    assert FirstIdle(m.main, m.ent) == 0;
  }

  /** All ids were given slots, the first one the slot expert 0 still has. */
  ghost predicate Following(b: Batch, ids: seq<int>, n: nat, k: nat, at: nat) {
    && OneLayerShape(b.c, n) && Primed(b.c.layers[0], n, k) && b.exhausted == 0 && b.held == ids
    && |b.out| == |ids| && (|ids| > 0 ==> b.out[0] == at) && Ent(b.c, 0).slot == at
  }

  /** The batch after ids, all experts being owned. */
  ghost function Serving(c: State, ids: seq<int>, nbytes: nat): (b: Batch)
    requires Plain(c)
    ensures Plain(b.c) && b.c.nExpert == c.nExpert && b.c.nSlot == c.nSlot
  {
    ServeAll(c, ids, Every(c.nExpert), nbytes)
  }

  lemma {:induction false} ServingNext(c: State, ids: seq<int>, id: int, nbytes: nat)
    requires Solo(c)
    ensures Plain(c) && Solo(Serving(c, ids, nbytes).c)
    ensures Serving(c, ids + [id], nbytes) == ServeOne(Serving(c, ids, nbytes), id, Every(c.nExpert), nbytes)
  {
    ServeAllSolo(c, ids, Every(c.nExpert), nbytes);
    assert (ids + [id])[..|ids|] == ids;
  }

  lemma {:induction false} FollowHit(c: State, ids: seq<int>, e: nat, k: nat, at: nat, nbytes: nat)
    requires Solo(c) && Plain(c) && e < 2 && (|ids| > 0 || e == 0)
    requires Follows(c, ids, k, at, nbytes)
    ensures Follows(c, ids + [e], k, at, nbytes)
  {
    ServingNext(c, ids, e, nbytes);
    var b := Serving(c, ids, nbytes);
    HitStep(b, e, nbytes);
    PrimedHit(b.c.layers[0], c.nExpert, k, e, b.c.step);
  }

  lemma {:induction false} FollowArrive(c: State, ids: seq<int>, k: nat, at: nat, nbytes: nat)
    requires Solo(c) && Plain(c) && k < c.nSlot && k < c.nExpert && |ids| > 0
    requires Follows(c, ids, k, at, nbytes)
    ensures Follows(c, ids + [k], k + 1, at, nbytes)
  {
    ServingNext(c, ids, k, nbytes);
    var b := Serving(c, ids, nbytes);
    var x := MissStep(b, k, nbytes);
    PrimedArrive(b.c.layers[0], c.nExpert, k, x, b.c.step);
  }

  /** m ids of expert e. */
  function Times(e: nat, m: nat): (z: seq<int>)
    ensures |z| == m
  {
    seq(m, _ => e)
  }

  /** Experts 2, ..., k - 1. */
  function Others(k: nat): (z: seq<int>)
    requires k >= 2
    ensures |z| == k - 2
  {
    seq(k - 2, i => i + 2)
  }

  lemma {:induction false} TimesNext(ids: seq<int>, e: nat, m: nat)
    ensures ids + Times(e, 0) == ids && ids + Times(e, m + 1) == ids + Times(e, m) + [e]
  {
  }

  lemma {:induction false} OthersNext(ids: seq<int>, k: nat)
    requires k >= 2
    ensures ids + Others(2) == ids && ids + Others(k + 1) == ids + Others(k) + [k]
  {
  }

  /** Following, for the batch the ids make from c. */
  ghost predicate Follows(c: State, ids: seq<int>, k: nat, at: nat, nbytes: nat)
    requires Plain(c)
  {
    Following(Serving(c, ids, nbytes), ids, c.nExpert, k, at)
  }

  lemma {:induction false} FollowHits(c: State, ids: seq<int>, e: nat, m: nat, at: nat, nbytes: nat)
    requires Solo(c) && Plain(c) && e < 2 && (|ids| > 0 || e == 0)
    requires Follows(c, ids, 2, at, nbytes)
    ensures Follows(c, ids + Times(e, m), 2, at, nbytes)
  {
    TimesNext(ids, e, if m > 0 then m - 1 else 0);
    if m > 0 {
      FollowHits(c, ids, e, m - 1, at, nbytes);
      FollowHit(c, ids + Times(e, m - 1), e, 2, at, nbytes);
    }
  }

  lemma {:induction false} FollowFill(c: State, ids: seq<int>, k: nat, at: nat, nbytes: nat)
    requires Solo(c) && Plain(c) && 2 <= k <= c.nSlot && k <= c.nExpert && |ids| > 0
    requires Follows(c, ids, 2, at, nbytes)
    ensures Follows(c, ids + Others(k), k, at, nbytes)
  {
    OthersNext(ids, if k > 2 then k - 1 else 2);
    if k > 2 {
      FollowFill(c, ids, k - 1, at, nbytes);
      FollowArrive(c, ids + Others(k - 1), k - 1, at, nbytes);
    }
  }

  /** A new expert takes the slot of expert 0, whose counter shows no reference. */
  lemma {:induction false} EvictAnswer(c: State, e: nat)
    requires Solo(c) && OneLayerShape(c, c.nExpert) && Primed(c.layers[0], c.nExpert, c.nSlot)
    requires c.nSlot <= e < c.nExpert && Ent(c, 0).rc == 0
    ensures Shape(c) && Acquire(c, 0, e, Demand).slot == Ent(c, 0).slot != NO_SLOT && !Acquire(c, 0, e, Demand).hit
  {
    SoloFacts(c);
    assert EntryOk(Ent(c, 0), c.nSlot);
    MissLayerShape(c.layers[0], e, c.step);
    PrimedEvicts(c.layers[0], c.nExpert, c.nSlot, e, c.step, c.nSlot * c.ghostMult);
    FullAnswer(c, e, Ent(c, 0).slot);
  }

  lemma {:induction false} FollowEvict(c: State, ids: seq<int>, e: nat, at: nat, nbytes: nat)
    requires Solo(c) && Plain(c) && c.nSlot <= e < c.nExpert && |ids| > 0
    requires Follows(c, ids, c.nSlot, at, nbytes) && Ent(Serving(c, ids, nbytes).c, 0).rc == 0
    ensures var t := Serving(c, ids + [e], nbytes);
      t.exhausted == 0 && |t.out| == |ids| + 1 && t.out[0] == at && |t.pend| > 0 && t.pend[|t.pend| - 1] == Pend(e, at)
  {
    ServingNext(c, ids, e, nbytes);
    EvictAnswer(Serving(c, ids, nbytes).c, e);
  }

  // ---------------------------------------------------------------------------
  // The first call: experts 0 and 1, twice each
  // ---------------------------------------------------------------------------

  /** Only expert 0 is cached, in MAIN. */
  ghost predicate Single(ly: Layer, n: nat) {
    && |ly.ent| == |ly.slot| == n && n > 0 && ly.resident == 1
    && ly.small == [] && ly.main == [0] && ly.ghosts == []
    && ly.ent[0].seg == Main && ly.ent[0].freq >= 2
    && (forall d :: 1 <= d < n ==> ly.ent[d].seg == NotCached)
  }

  lemma {:induction false} WarmOne(n: nat, x: nat, step: nat, step': nat)
    requires n >= 2
    ensures Single(HitLayer(Arrive(EmptyLayer(n), 0, x, step), 0, step'), n)
  {
  }

  lemma {:induction false} WarmTwo(ly: Layer, n: nat, x: nat, step: nat, step': nat)
    requires n >= 2 && Single(ly, n)
    ensures Primed(HitLayer(Arrive(ly, 1, x, step), 1, step'), n, 2)
  {
  }

  lemma {:induction false} WarmExpert(c: State, ids: seq<int>, e: nat, nbytes: nat) returns (x: nat, step: nat, step': nat)
    requires Solo(c) && Plain(c) && e < c.nExpert
    requires var b := Serving(c, ids, nbytes);
      OneLayerShape(b.c, c.nExpert) && !Cached(b.c, e) && b.c.layers[0].resident < c.nSlot && b.c.layers[0].ghosts == []
    ensures var b, t := Serving(c, ids, nbytes), Serving(c, ids + [e] + [e], nbytes);
      && |b.c.layers[0].slot| == c.nExpert && t.exhausted == b.exhausted
      && t.c.layers == [HitLayer(Arrive(b.c.layers[0], e, x, step), e, step')]
  {
    var b, a := Serving(c, ids, nbytes), Serving(c, ids + [e], nbytes);
    ServingNext(c, ids, e, nbytes);
    x := MissStep(b, e, nbytes);
    step, step' := b.c.step, a.c.step;
    ServingNext(c, ids + [e], e, nbytes);
    ArriveCached(b.c.layers[0], e, x, step);
    HitStep(a, e, nbytes);
  }

  lemma {:induction false} ArriveCached(ly: Layer, e: nat, x: nat, step: nat)
    requires e < |ly.ent| == |ly.slot|
    ensures |Arrive(ly, e, x, step).ent| == |ly.ent| && Arrive(ly, e, x, step).ent[e].seg == Small
  {
  }

  const WARM: seq<int> := [] + [0] + [0] + [1] + [1]

  lemma {:induction false} WarmUp(c: State, nbytes: nat)
    requires Solo(c) && Plain(c) && c.layers == [EmptyLayer(c.nExpert)] && c.nExpert >= 2 && c.nSlot >= 2
    ensures Primed(Serving(c, WARM, nbytes).c.layers[0], c.nExpert, 2)
  {
    var x, p, q := WarmExpert(c, [], 0, nbytes);
    WarmOne(c.nExpert, x, p, q);
    var l := Serving(c, [] + [0] + [0], nbytes).c.layers[0];
    x, p, q := WarmExpert(c, [] + [0] + [0], 1, nbytes);
    WarmTwo(l, c.nExpert, x, p, q);
  }

  // ---------------------------------------------------------------------------
  // The second call: expert 0 as often as its counter has values, then enough others
  // ---------------------------------------------------------------------------

  /** Expert 0 until its refcount is back at zero, j times expert 1, the others the slots have
      room for, and one expert more. */
  function WrapIds(nSlot: nat, j: nat): (ids: seq<int>)
    requires nSlot >= 2
    ensures |ids| > 0 && ids[0] == 0
  {
    Times(0, RC_MOD) + Times(1, j) + Others(nSlot) + [nSlot]
  }

  lemma {:induction false} TimesCount(e: nat, m: nat, d: int)
    ensures multiset(Times(e, m))[d] == if d == e then m else 0
  {
    if m > 0 {
      TimesCount(e, m - 1, d);
      assert Times(e, m) == Times(e, m - 1) + [e];
    }
  }

  lemma {:induction false} OthersCount(k: nat, d: int)
    requires k >= 2
    ensures multiset(Others(k))[d] == if 2 <= d < k then 1 else 0
  {
    if k > 2 {
      OthersCount(k - 1, d);
      assert Others(k) == Others(k - 1) + [k - 1];
    }
  }

  lemma {:induction false} WrapCount(nSlot: nat, j: nat, d: int)
    requires nSlot >= 2
    ensures multiset(WrapIds(nSlot, j))[d] ==
      if d == 0 then RC_MOD else if d == 1 then j else if 2 <= d <= nSlot then 1 else 0
  {
    TimesCount(0, RC_MOD, d);
    TimesCount(1, j, d);
    OthersCount(nSlot, d);
  }

  lemma {:induction false} WrapServed(c: State, j: nat, nbytes: nat)
    requires Solo(c) && Plain(c) && OneLayerShape(c, c.nExpert) && 2 <= c.nSlot < c.nExpert
    requires Primed(c.layers[0], c.nExpert, 2) && NoRefs(c, c.nExpert)
    ensures var b := Serving(c, WrapIds(c.nSlot, j), nbytes);
      && b.exhausted == 0 && |b.out| > 0 && b.out[0] == Ent(c, 0).slot
      && |b.pend| > 0 && b.pend[|b.pend| - 1] == Pend(c.nSlot, Ent(c, 0).slot)
  {
    var at, S := Ent(c, 0).slot, c.nSlot;
    var zeros := Times(0, RC_MOD);
    assert [] + zeros == zeros;
    FollowHits(c, [], 0, RC_MOD, at, nbytes);
    FollowHits(c, zeros, 1, j, at, nbytes);
    FollowFill(c, zeros + Times(1, j), S, at, nbytes);
    var ids := zeros + Times(1, j) + Others(S);
    Wrapped(c, ids, at, nbytes) by {
      TimesCount(0, RC_MOD, 0);
      TimesCount(1, j, 0);
      OthersCount(S, 0);
    }
    FollowEvict(c, ids, S, at, nbytes);
  }

  /** 65536 references show as none. */
  lemma {:induction false} Wrapped(c: State, ids: seq<int>, at: nat, nbytes: nat)
    requires Solo(c) && Plain(c) && OneLayerShape(c, c.nExpert) && NoRefs(c, c.nExpert) && c.nExpert > 0
    requires Follows(c, ids, c.nSlot, at, nbytes) && multiset(ids)[0] == RC_MOD
    ensures Ent(Serving(c, ids, nbytes).c, 0).rc == 0
  {
    ServeAllRefs(c, ids, Every(c.nExpert), nbytes);
    var b := Serving(c, ids, nbytes);
    SameCount(b.held, ids, 0);
    assert Ent(b.c, 0).rc == multiset(b.held)[0] % RC_MOD;
  }

  lemma {:induction false} SameCount(a: seq<nat>, b: seq<int>, e: nat)
    requires a == b
    ensures multiset(a)[e] == multiset(b)[e]
  {
  }

  lemma {:induction false} WrapWanted(nSlot: nat, j: nat, n: nat)
    requires 2 <= nSlot < n
    ensures |Wanted(WrapIds(nSlot, j), Every(n))| == nSlot + (if j > 0 then 1 else 0)
  {
    var w := Wanted(WrapIds(nSlot, j), Every(n));
    RangeCard(nSlot + 1);
    forall e: nat ensures e in w <==> e in Range(nSlot + 1) - (if j > 0 then {} else {1}) {
      WrapCount(nSlot, j, e);
    }
    assert w == Range(nSlot + 1) - (if j > 0 then {} else {1});
  }

  // ---------------------------------------------------------------------------
  // The two calls
  // ---------------------------------------------------------------------------

  const WARM_CALL: Call := Call(0, 1, WARM)

  function WrapCall(nSlot: nat, j: nat): Call
    requires nSlot >= 2
  {
    Call(0, 1, WrapIds(nSlot, j))
  }

  lemma {:induction false} OwnsEvery(ids: seq<int>, n: nat)
    ensures OwnOf(Call(0, 1, ids), n) == Every(n)
  {
  }

  lemma {:induction false} PrimedReleased(c: State, r: State, l: seq<nat>, n: nat)
    requires ReleasedBy(c, r, l, n) && Primed(c.layers[0], n, 2)
    requires r.layers[0] == c.layers[0].(ent := r.layers[0].ent)
    ensures Primed(r.layers[0], n, 2)
  {
    forall d | 0 <= d < n ensures r.layers[0].ent[d] == c.layers[0].ent[d].(rc := Ent(r, d).rc) {
      assert Ent(r, d) == Ent(c, d).(rc := Minus(Ent(c, d).rc, multiset(l)[d]));
    }
  }

  /** After the first call and the release loop of the second, experts 0 and 1 are in MAIN and
      nobody is in use. */
  lemma {:induction false} WarmLeaves(rt: LayerRt, f: LayerFile, nbytes: nat)
    requires RtInv(rt, f) && FreshRt(rt, f) && rt.c.nExpert >= 2 && rt.c.nSlot >= 2
    ensures var t := After(rt, f, WARM_CALL, nbytes);
      && RtShape(t, f) && t.c.nExpert == rt.c.nExpert && t.c.nSlot == rt.c.nSlot
      && NoRefs(Begin(t, f), rt.c.nExpert) && Primed(Begin(t, f).layers[0], rt.c.nExpert, 2)
  {
    WarmAfter(rt, f, nbytes);
    RefsKeep(rt, f, WARM_CALL, nbytes);
    AfterShape(rt, f, WARM_CALL, nbytes);
    WarmReleased(After(rt, f, WARM_CALL, nbytes), f);
  }

  lemma {:induction false} WarmAfter(rt: LayerRt, f: LayerFile, nbytes: nat)
    requires RtShape(rt, f) && FreshRt(rt, f) && rt.c.nExpert >= 2 && rt.c.nSlot >= 2
    ensures |After(rt, f, WARM_CALL, nbytes).c.layers| == 1
    ensures Primed(After(rt, f, WARM_CALL, nbytes).c.layers[0], rt.c.nExpert, 2)
  {
    FlatEmpty(NO_REFS);
    OwnsEvery(WARM, rt.c.nExpert);
    WarmUp(rt.c, nbytes);
  }

  lemma {:induction false} WarmReleased(t: LayerRt, f: LayerFile)
    requires RtShape(t, f) && CountsRefs(t.c, Flat(t.held)) && Primed(t.c.layers[0], t.c.nExpert, 2)
    ensures NoRefs(Begin(t, f), t.c.nExpert) && Primed(Begin(t, f).layers[0], t.c.nExpert, 2)
  {
    BeginNoRefs(t, f);
    ReleaseAllEffect(t.c, Flat(t.held));
    ReleaseAllQueues(t.c, Flat(t.held));
    PrimedReleased(t.c, Begin(t, f), Flat(t.held), t.c.nExpert);
  }

  /** The second call runs out of nothing, and its first id, 0, reads the bytes of the expert
      that came last. */
  lemma {:induction false} WrapReads(t: LayerRt, f: LayerFile, nbytes: nat, j: nat, r: nat)
    requires RtShape(t, f) && 2 <= t.c.nSlot < t.c.nExpert && r < ROLES
    requires NoRefs(Begin(t, f), t.c.nExpert) && Primed(Begin(t, f).layers[0], t.c.nExpert, 2)
    ensures var call := WrapCall(t.c.nSlot, j);
      var b := Serve(t, f, call, nbytes);
      var slab := After(t, f, call, nbytes).slab;
      && b.exhausted == 0 && |b.out| > 0 && b.out[0] < t.c.nSlot && |slab| == ROLES && b.out[0] < |slab[r]|
      && slab[r][b.out[0]] == f.bytes[r][t.c.nSlot]
  {
    var call := WrapCall(t.c.nSlot, j);
    OwnsEvery(call.ids, t.c.nExpert);
    WrapServed(Begin(t, f), j, nbytes);
    AfterShape(t, f, call, nbytes);
    ServeInRange(t, f, call, nbytes);
    LoadedLast(t.slab, Serve(t, f, call, nbytes).pend, f, t.c.nExpert, t.c.nSlot, r);
  }

  lemma {:induction false} LoadedLast(slab: seq<seq<Block>>, pend: seq<Pend>, f: LayerFile, n: nat, nSlot: nat, r: nat)
    requires SlabShape(slab, nSlot) && FileShape(f, n) && PendIn(pend, n, nSlot) && |pend| > 0 && r < ROLES
    ensures Loaded(slab, pend, f, n, nSlot)[r][pend[|pend| - 1].slot] == f.bytes[r][pend[|pend| - 1].e]
  {
  }

  /** On every layer with fewer slots than experts: after one ordinary call, a call whose
      distinct experts fit the slots (j == 0) reads the wrong weights, and one whose distinct
      experts do not fit (j > 0) is not reported as running out. */
  lemma {:induction false} WrapReadsWrongBytes(rt: LayerRt, f: LayerFile, nbytes: nat, j: nat, r: nat)
    requires FreshRt(rt, f) && 2 <= rt.c.nSlot < rt.c.nExpert && r < ROLES
    ensures RtShape(rt, f)
    ensures var t, call := Run(rt, f, [WARM_CALL], nbytes), WrapCall(rt.c.nSlot, j);
      var b := Serve(t, f, call, nbytes);
      var slab := After(t, f, call, nbytes).slab;
      && |Wanted(call.ids, OwnOf(call, rt.c.nExpert))| == rt.c.nSlot + (if j > 0 then 1 else 0) && b.exhausted == 0
      && call.ids[0] == 0 && |b.out| > 0 && b.out[0] < rt.c.nSlot && |slab| == ROLES && b.out[0] < |slab[r]|
      && slab[r][b.out[0]] == f.bytes[r][rt.c.nSlot]
  {
    FreshInv(rt, f);
    var t := After(rt, f, WARM_CALL, nbytes);
    RunNext(rt, f, [WARM_CALL], nbytes);
    assert [WARM_CALL][..0] == [];
    WarmLeaves(rt, f, nbytes);
    WrapReads(t, f, nbytes, j, r);
    OwnsEvery(WrapIds(rt.c.nSlot, j), rt.c.nExpert);
    WrapWanted(rt.c.nSlot, j, rt.c.nExpert);
  }

  // ---------------------------------------------------------------------------
  // The bound on repetitions is exact
  // ---------------------------------------------------------------------------

  /** No expert occurs m times or more; other ids may occur at will. */
  ghost predicate Fewer(call: Call, n: nat, m: nat) {
    forall e: nat :: e < n ==> multiset(call.ids)[e] < m
  }

  /** A run of calls from a fresh layer of the given size and one call more, in none of which
      an expert occurs m times. */
  ghost predicate Admits(rt: LayerRt, f: LayerFile, calls: seq<Call>, call: Call, nExpert: nat, nSlot: nat, m: nat) {
    && FreshRt(rt, f) && rt.c.nExpert == nExpert && rt.c.nSlot == nSlot
    && CallsOk(calls) && CallOk(call)
    && Fewer(call, nExpert, m) && forall k :: 0 <= k < |calls| ==> Fewer(calls[k], nExpert, m)
  }

  /** If its distinct experts fit the slots, the last call gathers the file at position i. */
  ghost predicate ReadsFile(rt: LayerRt, f: LayerFile, calls: seq<Call>, call: Call, nbytes: nat, i: nat, r: nat)
    requires FreshRt(rt, f) && CallsOk(calls) && CallOk(call)
  {
    FreshInv(rt, f);
    var t := Run(rt, f, calls, nbytes);
    i < |call.ids| && r < ROLES && |Wanted(call.ids, OwnOf(call, rt.c.nExpert))| <= rt.c.nSlot ==>
      GathersFile(t, f, call, Serve(t, f, call, nbytes).out, After(t, f, call, nbytes).slab, i, r)
  }

  /** The last call reports exhaustion exactly if its distinct experts do not fit the slots. */
  ghost predicate Reports(rt: LayerRt, f: LayerFile, calls: seq<Call>, call: Call, nbytes: nat)
    requires FreshRt(rt, f) && CallsOk(calls) && CallOk(call)
  {
    FreshInv(rt, f);
    Serve(Run(rt, f, calls, nbytes), f, call, nbytes).exhausted > 0 <==>
      |Wanted(call.ids, OwnOf(call, rt.c.nExpert))| > rt.c.nSlot
  }

  /** On layers of this size, every call reads right if no expert occurs m times. */
  ghost predicate ReadsBelow(nExpert: nat, nSlot: nat, m: nat) {
    forall rt: LayerRt, f: LayerFile, calls: seq<Call>, call: Call, nbytes: nat, i: nat, r: nat ::
      Admits(rt, f, calls, call, nExpert, nSlot, m) ==> ReadsFile(rt, f, calls, call, nbytes, i, r)
  }

  ghost predicate ReportsBelow(nExpert: nat, nSlot: nat, m: nat) {
    forall rt: LayerRt, f: LayerFile, calls: seq<Call>, call: Call, nbytes: nat ::
      Admits(rt, f, calls, call, nExpert, nSlot, m) ==> Reports(rt, f, calls, call, nbytes)
  }

  lemma {:induction false} FewerIsSafe(call: Call, nExpert: nat, nSlot: nat, m: nat)
    requires Fewer(call, nExpert, m) && (m <= RC_MOD || nExpert <= nSlot)
    ensures CallSafe(call, nExpert, nSlot)
  {
  }

  lemma {:induction false} AdmitsSafe(rt: LayerRt, f: LayerFile, calls: seq<Call>, call: Call, nExpert: nat, nSlot: nat, m: nat)
    requires Admits(rt, f, calls, call, nExpert, nSlot, m) && (m <= RC_MOD || nExpert <= nSlot)
    ensures CallSafe(call, nExpert, nSlot) && CallsSafe(calls, nExpert, nSlot)
  {
    FewerIsSafe(call, nExpert, nSlot, m);
    forall k | 0 <= k < |calls| ensures CallSafe(calls[k], nExpert, nSlot) {
      FewerIsSafe(calls[k], nExpert, nSlot, m);
    }
  }

  lemma {:induction false} SafeReads(rt: LayerRt, f: LayerFile, calls: seq<Call>, call: Call, nbytes: nat, i: nat, r: nat)
    requires FreshRt(rt, f) && CallsOk(calls) && CallOk(call)
    requires CallSafe(call, rt.c.nExpert, rt.c.nSlot) && CallsSafe(calls, rt.c.nExpert, rt.c.nSlot)
    ensures ReadsFile(rt, f, calls, call, nbytes, i, r)
  {
    if i < |call.ids| && r < ROLES && |Wanted(call.ids, OwnOf(call, rt.c.nExpert))| <= rt.c.nSlot {
      RunExact(rt, f, calls, call, nbytes, i, r);
    }
  }

  lemma {:induction false} SafeReports(rt: LayerRt, f: LayerFile, calls: seq<Call>, call: Call, nbytes: nat)
    requires FreshRt(rt, f) && CallsOk(calls) && CallOk(call)
    requires CallSafe(call, rt.c.nExpert, rt.c.nSlot) && CallsSafe(calls, rt.c.nExpert, rt.c.nSlot)
    ensures Reports(rt, f, calls, call, nbytes)
  {
    FreshInv(rt, f);
    RunKeeps(rt, f, calls, nbytes);
    ExhaustsIffTooMany(Run(rt, f, calls, nbytes), f, call, nbytes);
  }

  /** A fresh layer in which expert e's bytes are e's own. */
  lemma {:induction false} FreshLayer(nExpert: nat, nSlot: nat) returns (rt: LayerRt, f: LayerFile)
    requires 1 <= nSlot <= NO_SLOT
    ensures FreshRt(rt, f) && rt.c.nExpert == nExpert && rt.c.nSlot == nSlot
    ensures forall e :: 0 <= e < nExpert ==> |f.bytes[0][e]| == e
  {
    var zero := seq(1, _ => 0);
    rt := LayerRt(Init(1, nExpert, nSlot, 2), NO_REFS, seq(ROLES, _ => seq(nSlot + 1, _ => zero)));
    f := LayerFile(seq(ROLES, _ => seq(nExpert, (e: nat) => seq(e, _ => 0))), seq(ROLES, _ => zero));
  }

  lemma {:induction false} WrapAdmitted(rt: LayerRt, f: LayerFile, j: nat, m: nat)
    requires FreshRt(rt, f) && 2 <= rt.c.nSlot < rt.c.nExpert && j <= 1 && m > RC_MOD
    ensures Admits(rt, f, [WARM_CALL], WrapCall(rt.c.nSlot, j), rt.c.nExpert, rt.c.nSlot, m)
  {
    forall e: nat ensures multiset(WrapIds(rt.c.nSlot, j))[e] < m && multiset(WARM)[e] < m {
      WrapCount(rt.c.nSlot, j, e);
    }
  }

  lemma {:induction false} WrapMisreads(rt: LayerRt, f: LayerFile, nbytes: nat)
    requires FreshRt(rt, f) && 2 <= rt.c.nSlot < rt.c.nExpert && f.bytes[0][0] != f.bytes[0][rt.c.nSlot]
    ensures !ReadsFile(rt, f, [WARM_CALL], WrapCall(rt.c.nSlot, 0), nbytes, 0, 0)
  {
    WrapReadsWrongBytes(rt, f, nbytes, 0, 0);
    OwnsEvery(WrapIds(rt.c.nSlot, 0), rt.c.nExpert);
  }

  lemma {:induction false} WrapUnreported(rt: LayerRt, f: LayerFile, nbytes: nat)
    requires FreshRt(rt, f) && 2 <= rt.c.nSlot < rt.c.nExpert
    ensures !Reports(rt, f, [WARM_CALL], WrapCall(rt.c.nSlot, 1), nbytes)
  {
    WrapReadsWrongBytes(rt, f, nbytes, 1, 0);
  }

  /** Repetitions are harmless up to 65535 and no further, unless every expert has a slot:
      for each size of layer this is the exact condition under which calls that fit read the
      right bytes, and under which exhaustion is reported exactly when a call does not fit. */
  lemma {:induction false} BoundIsExact(nExpert: nat, nSlot: nat, m: nat)
    requires 2 <= nSlot <= NO_SLOT
    ensures ReadsBelow(nExpert, nSlot, m) <==> m <= RC_MOD || nExpert <= nSlot
    ensures ReportsBelow(nExpert, nSlot, m) <==> m <= RC_MOD || nExpert <= nSlot
  {
    if m <= RC_MOD || nExpert <= nSlot {
      AlwaysReads(nExpert, nSlot, m);
      AlwaysReports(nExpert, nSlot, m);
    } else {
      var rt, f := FreshLayer(nExpert, nSlot);
      WrapAdmitted(rt, f, 0, m);
      WrapMisreads(rt, f, m);
      WrapAdmitted(rt, f, 1, m);
      WrapUnreported(rt, f, m);
    }
  }

  lemma {:induction false} AlwaysReads(nExpert: nat, nSlot: nat, m: nat)
    requires m <= RC_MOD || nExpert <= nSlot
    ensures ReadsBelow(nExpert, nSlot, m)
  {
    forall rt: LayerRt, f: LayerFile, calls: seq<Call>, call: Call, nbytes: nat, i: nat, r: nat
      | Admits(rt, f, calls, call, nExpert, nSlot, m)
      ensures ReadsFile(rt, f, calls, call, nbytes, i, r)
    {
      AdmitsSafe(rt, f, calls, call, nExpert, nSlot, m);
      SafeReads(rt, f, calls, call, nbytes, i, r);
    }
  }

  lemma {:induction false} AlwaysReports(nExpert: nat, nSlot: nat, m: nat)
    requires m <= RC_MOD || nExpert <= nSlot
    ensures ReportsBelow(nExpert, nSlot, m)
  {
    forall rt: LayerRt, f: LayerFile, calls: seq<Call>, call: Call, nbytes: nat
      | Admits(rt, f, calls, call, nExpert, nSlot, m)
      ensures Reports(rt, f, calls, call, nbytes)
    {
      AdmitsSafe(rt, f, calls, call, nExpert, nSlot, m);
      SafeReports(rt, f, calls, call, nbytes);
    }
  }
}
