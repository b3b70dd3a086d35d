/** The initial state and runs of cache operations. */
module CacheReachability {
  import opened Seqs
  import opened CacheModel
  import opened CacheInvariants
  import opened SlotConservation
  import QuotaModel

  /** n_slot, or the fraction of all experts it stands for when it is 0. */
  function SlotCount(nLayer: nat, nExpert: nat, slots: nat, cacheFrac: real): nat
    requires cacheFrac >= 0.0
  {
    if slots != 0 then slots else (((nLayer * nExpert) as real) * cacheFrac + 0.5).Floor
  }

  lemma EmptyLayerInv(n: nat, nSlot: nat)
    ensures LayerInv(EmptyLayer(n), n, nSlot)
    ensures Occ(EmptyLayer(n)) == {}
  {
    assert PinnedSet(EmptyLayer(n).ent) == {};
  }

  /** A freshly built cache satisfies the invariant. */
  lemma InitInv(nLayer: nat, nExpert: nat, nSlot: nat, ghostMult: nat)
    requires nLayer > 0 && nSlot <= NO_SLOT
    ensures Inv(Init(nLayer, nExpert, nSlot, ghostMult))
  {
    var s := Init(nLayer, nExpert, nSlot, ghostMult);
    EmptyLayerInv(nExpert, nSlot);
    SumZero(Residents(s.layers));
    SumZero(Unpinned(s.layers));
    forall x | 0 <= x < nSlot ensures x in s.free {
      assert s.free[nSlot - 1 - x] == x;
    }
  }

  // ---------------------------------------------------------------------------
  // Pinning from calibration statistics
  // ---------------------------------------------------------------------------

  /** How many experts per layer are pinned. */
  function PinCount(nExpert: nat, pinRatio: real): nat
    requires pinRatio >= 0.0
  {
    var k := (nExpert as real * pinRatio + 0.5).Floor;
    if k >= 1 then k else 1
  }

  function PinLayer(ly: Layer, e: nat, x: nat): Layer
    requires e < |ly.ent| && e < |ly.slot|
  {
    ly.(ent := ly.ent[e := ly.ent[e].(slot := x, seg := Pinned, resident := true)],
        slot := ly.slot[e := x], pinned := ly.pinned + 1, resident := ly.resident + 1)
  }

  function PinOne(s: State, l: nat, e: nat): State
    requires Shape(s) && l < |s.layers| && e < s.nExpert && |s.free| > 0
  {
    var (t, x) := PopFree(s);
    t.(layers := t.layers[l := PinLayer(t.layers[l], e, x)])
  }

  /** Pin the experts of es in order while free slots last. */
  function PinSome(s: State, l: nat, es: seq<nat>): State
    requires Shape(s) && l < |s.layers| && QueueIn(es, s.nExpert)
    decreases |es|
  {
    if |es| == 0 || |s.free| == 0 then s
    else
      assert QueueIn(es[1..], s.nExpert);
      PinSome(if s.layers[l].ent[es[0]].seg == NotCached then PinOne(s, l, es[0]) else s, l, es[1..])
  }

  lemma {:induction false} PinSomeShape(s: State, l: nat, es: seq<nat>)
    requires Shape(s) && l < |s.layers| && QueueIn(es, s.nExpert)
    ensures var t := PinSome(s, l, es);
      && Shape(t) && |t.layers| == |s.layers| && t.nExpert == s.nExpert
      && forall k :: 0 <= k < |s.layers| && k != l ==> t.layers[k] == s.layers[k]
    decreases |es|
  {
    if |es| > 0 && |s.free| > 0 {
      PinSomeShape(if s.layers[l].ent[es[0]].seg == NotCached then PinOne(s, l, es[0]) else s, l, es[1..]);
    }
  }

  /** For each layer an order of its experts, at least perLayer long. */
  ghost predicate Orders(s: State, orders: seq<seq<nat>>, perLayer: nat) {
    |orders| == |s.layers|
    && forall l :: 0 <= l < |orders| ==> QueueIn(orders[l], s.nExpert) && perLayer <= |orders[l]|
  }

  /** The first n layers pin the head of their orders. */
  ghost function PinAll(s: State, orders: seq<seq<nat>>, perLayer: nat, n: nat): (t: State)
    requires Shape(s) && Orders(s, orders, perLayer) && n <= |s.layers|
    ensures Shape(t) && |t.layers| == |s.layers| && t.nExpert == s.nExpert
  {
    if n == 0 then s
    else
      var t := PinAll(s, orders, perLayer, n - 1);
      var es := orders[n - 1][..perLayer];
      PinSomeShape(t, n - 1, es);
      PinSome(t, n - 1, es)
  }

  lemma PinOcc(ly: Layer, e: nat, x: nat, nSlot: nat)
    requires LayerInv(ly, |ly.ent|, nSlot) && e < |ly.ent| && ly.ent[e].seg == NotCached && x !in Occ(ly)
    ensures Occ(PinLayer(ly, e, x)) == Occ(ly) + {x}
    ensures Injective(PinLayer(ly, e, x).ent)
  {
    var a := PinLayer(ly, e, x);
    forall d | 0 <= d < |ly.ent| && ly.ent[d].seg != NotCached ensures ly.ent[d].slot in Occ(a) && ly.ent[d].slot != x {
      assert a.ent[d] == ly.ent[d];
      assert ly.ent[d].slot in Occ(ly);
    }
    assert a.ent[e].slot == x && a.ent[e].seg != NotCached;
    forall y | y in Occ(a) ensures y in Occ(ly) + {x} {
      var d :| 0 <= d < |a.ent| && a.ent[d].seg != NotCached && a.ent[d].slot == y;
      if d != e { assert ly.ent[d] == a.ent[d]; }
    }
  }

  lemma PinKeepsLayer(ly: Layer, e: nat, x: nat, n: nat, nSlot: nat)
    requires LayerInv(ly, n, nSlot) && e < n && ly.ent[e].seg == NotCached && e !in ly.ghosts
    requires x < nSlot && x !in Occ(ly)
    ensures LayerInv(PinLayer(ly, e, x), n, nSlot)
    ensures PinnedSet(PinLayer(ly, e, x).ent) == PinnedSet(ly.ent) + {e}
  {
    var a := PinLayer(ly, e, x);
    PinOcc(ly, e, x, nSlot);
    forall d | 0 <= d < n ensures EntryOk(a.ent[d], nSlot) && Placed(a, d) {
      assert Placed(ly, d) && EntryOk(ly.ent[d], nSlot);
    }
    assert PinnedSet(a.ent) == PinnedSet(ly.ent) + {e};
  }

  /** Pinning an expert keeps the invariant exactly if the expert is not remembered as a
      ghost: pinning does not clear ghost lists, which is why it belongs before the first
      request. */
  lemma {:induction false} PinOneKeepsIff(s: State, l: nat, e: nat)
    requires Inv(s) && l < |s.layers| && e < s.nExpert && |s.free| > 0
    requires e < |s.layers[l].ent| && s.layers[l].ent[e].seg == NotCached
    ensures Shape(s) && (Inv(PinOne(s, l, e)) <==> e !in s.layers[l].ghosts)
  {
    if e in s.layers[l].ghosts {
      PinOverGhost(s, l, e);
    } else {
      PinOneKeeps(s, l, e);
    }
  }

  lemma {:induction false} PinOverGhost(s: State, l: nat, e: nat)
    requires Shape(s) && l < |s.layers| && e < s.nExpert && |s.free| > 0
    requires e < |s.layers[l].ent| && e in s.layers[l].ghosts
    ensures !Inv(PinOne(s, l, e))
  {
    var t := PinOne(s, l, e);
    assert t.layers[l].ent[e].seg == Pinned && e in t.layers[l].ghosts;
    assert LayersInv(t) ==> LayerInv(t.layers[l], t.nExpert, t.nSlot);
    assert LayerInv(t.layers[l], t.nExpert, t.nSlot) ==> Placed(t.layers[l], e);
  }

  lemma {:induction false} PinOneKeeps(s: State, l: nat, e: nat)
    requires Inv(s) && Absent(s, l, e) && |s.free| > 0
    ensures Shape(s) && Inv(PinOne(s, l, e))
  {
    SlotsPopped(s);
    var (t, x) := PopFree(s);
    PinKeepsLayer(s.layers[l], e, x, s.nExpert, s.nSlot);
    PinOcc(s.layers[l], e, x, s.nSlot);
    SlotsAdmitted(t, l, PinLayer(s.layers[l], e, x), x);
    SumsUpdate(s.layers, l, PinLayer(s.layers[l], e, x));
  }

  /** What pinning does to a layer: the first of es that were not cached are pinned, as many
      as there are free slots, and nothing else changes. */
  lemma {:induction false} PinSomeEffect(s: State, l: nat, es: seq<nat>)
    requires Shape(s) && l < |s.layers| && QueueIn(es, s.nExpert)
    ensures var t := PinSome(s, l, es);
      && |t.layers| == |s.layers| && t.nExpert == s.nExpert && Shape(t)
      && t.layers[l].ghosts == s.layers[l].ghosts
      && (forall k :: 0 <= k < |s.layers| && k != l ==> t.layers[k] == s.layers[k])
      && (|t.free| > 0 ==> forall e :: e in es ==> t.layers[l].ent[e].seg != NotCached)
      && (forall e :: 0 <= e < s.nExpert && e !in es ==> t.layers[l].ent[e] == s.layers[l].ent[e])
      && (forall e :: 0 <= e < s.nExpert && s.layers[l].ent[e].seg != NotCached ==> t.layers[l].ent[e] == s.layers[l].ent[e])
    decreases |es|
  {
    PinSomeShape(s, l, es);
    if |es| > 0 && |s.free| > 0 {
      var e := es[0];
      PinSomeEffect(if s.layers[l].ent[e].seg == NotCached then PinOne(s, l, e) else s, l, es[1..]);
    }
  }

  /** Pinning takes the experts in the order given, skips the cached ones, and stops when no slot
      is free: an initial piece is cached afterwards, with the slots on top of the free stack,
      pinned and ready; everybody else is as before. */
  lemma {:induction false} PinSomeOrder(s: State, l: nat, es: seq<nat>) returns (m: nat)
    requires Shape(s) && l < |s.layers| && QueueIn(es, s.nExpert)
    ensures m <= |es|
    ensures var t := PinSome(s, l, es);
      && Shape(t) && |t.layers| == |s.layers| && t.nExpert == s.nExpert && (m == |es| || t.free == [])
      && t.free <= s.free
      && t.layers[l].pinned - s.layers[l].pinned == t.layers[l].resident - s.layers[l].resident == |s.free| - |t.free|
      && (forall e :: 0 <= e < s.nExpert && !(e in es[..m] && s.layers[l].ent[e].seg == NotCached) ==>
            t.layers[l].ent[e] == s.layers[l].ent[e])
      && (forall e :: 0 <= e < s.nExpert && e in es[..m] && s.layers[l].ent[e].seg == NotCached ==>
            t.layers[l].ent[e].slot in s.free[|t.free|..]
            && t.layers[l].ent[e] == s.layers[l].ent[e].(slot := t.layers[l].ent[e].slot, seg := Pinned, resident := true))
    decreases |es|
  {
    PinSomeShape(s, l, es);
    m := 0;
    if |es| > 0 && |s.free| > 0 {
      var e := es[0];
      var u := if s.layers[l].ent[e].seg == NotCached then PinOne(s, l, e) else s;
      m := PinSomeOrder(u, l, es[1..]);
      assert es[..m + 1] == [e] + es[1..][..m];
      m := m + 1;
    }
  }

  /** Pinning experts of a layer without ghosts keeps the invariant. */
  lemma {:induction false} PinSomeKeeps(s: State, l: nat, es: seq<nat>)
    requires Inv(s) && l < |s.layers| && QueueIn(es, s.nExpert) && s.layers[l].ghosts == []
    ensures Shape(s) && Inv(PinSome(s, l, es))
    decreases |es|
  {
    if |es| > 0 && |s.free| > 0 {
      var e := es[0];
      if s.layers[l].ent[e].seg == NotCached {
        PinOneKeeps(s, l, e);
        PinSomeKeeps(PinOne(s, l, e), l, es[1..]);
      } else {
        PinSomeKeeps(s, l, es[1..]);
      }
    }
  }

  ghost predicate PinReady(s: State) {
    Inv(s) && forall l :: 0 <= l < |s.layers| ==> s.layers[l].ghosts == []
  }

  lemma PinStepKeeps(s: State, l: nat, es: seq<nat>)
    requires PinReady(s) && l < |s.layers| && QueueIn(es, s.nExpert)
    ensures Shape(s) && PinReady(PinSome(s, l, es))
  {
    PinSomeEffect(s, l, es);
    PinSomeKeeps(s, l, es);
  }

  lemma PinAllStep(s: State, orders: seq<seq<nat>>, perLayer: nat, n: nat)
    requires Shape(s) && Orders(s, orders, perLayer) && 0 < n <= |s.layers|
    ensures var t := PinAll(s, orders, perLayer, n - 1);
      && n - 1 < |t.layers| && QueueIn(orders[n - 1][..perLayer], t.nExpert) && Shape(t)
      && PinAll(s, orders, perLayer, n) == PinSome(t, n - 1, orders[n - 1][..perLayer])
  {
  }

  lemma {:induction false} PinNextKeeps(s: State, orders: seq<seq<nat>>, perLayer: nat, n: nat)
    requires Shape(s) && Orders(s, orders, perLayer) && 0 < n <= |s.layers|
    requires PinReady(PinAll(s, orders, perLayer, n - 1))
    ensures PinReady(PinAll(s, orders, perLayer, n))
  {
    PinAllStep(s, orders, perLayer, n);
    PinStepKeeps(PinAll(s, orders, perLayer, n - 1), n - 1, orders[n - 1][..perLayer]);
  }

  /** Pinning at start-up, before any ghost exists, keeps the invariant. */
  lemma {:induction false} PinAllKeeps(s: State, orders: seq<seq<nat>>, perLayer: nat, n: nat)
    requires Shape(s) && Orders(s, orders, perLayer) && n <= |s.layers|
    requires PinReady(s)
    ensures PinReady(PinAll(s, orders, perLayer, n))
  {
    if n > 0 {
      PinAllKeeps(s, orders, perLayer, n - 1);
      PinNextKeeps(s, orders, perLayer, n);
    }
  }

  // ---------------------------------------------------------------------------
  // Pinning when some experts are remembered as ghosts
  // ---------------------------------------------------------------------------

  function Forget(ly: Layer): Layer { ly.(ghosts := []) }

  /** The state without its ghosts. */
  function Forgotten(s: State): State {
    s.(layers := seq(|s.layers|, l requires 0 <= l < |s.layers| => Forget(s.layers[l])))
  }

  /** Each layer's ghosts are distinct experts. */
  ghost predicate GhostLists(s: State) {
    forall l :: 0 <= l < |s.layers| ==> NoDup(s.layers[l].ghosts) && QueueIn(s.layers[l].ghosts, s.nExpert)
  }

  /** No ghost is cached. */
  ghost predicate GhostsAbsent(s: State) {
    forall l, e :: 0 <= l < |s.layers| && e in s.layers[l].ghosts && e < |s.layers[l].ent| ==> s.layers[l].ent[e].seg == NotCached
  }

  lemma {:induction false} ForgottenLayer(ly: Layer, n: nat, nSlot: nat)
    requires NoDup(ly.ghosts) && QueueIn(ly.ghosts, n) && |ly.ent| == n
    ensures LayerInv(ly, n, nSlot) <==>
            LayerInv(Forget(ly), n, nSlot) && forall e :: e in ly.ghosts && e < n ==> ly.ent[e].seg == NotCached
  {
    var f := Forget(ly);
    if LayerInv(ly, n, nSlot) {
      forall e | 0 <= e < n ensures Placed(f, e) && (e in ly.ghosts ==> ly.ent[e].seg == NotCached) { assert Placed(ly, e); }
    }
    if LayerInv(f, n, nSlot) && forall e :: e in ly.ghosts && e < n ==> ly.ent[e].seg == NotCached {
      forall e | 0 <= e < n ensures Placed(ly, e) { assert Placed(f, e); }
    }
  }

  /** Slots, counters and statistics do not depend on ghosts. */
  lemma {:induction false} ForgottenSlots(s: State)
    ensures Slots(Forgotten(s), {}) <==> Slots(s, {})
    ensures StatsOk(Forgotten(s)) <==> StatsOk(s)
  {
    var t := Forgotten(s);
    assert Residents(t.layers) == Residents(s.layers);
    assert Unpinned(t.layers) == Unpinned(s.layers);
    forall l | 0 <= l < |s.layers| ensures Occ(t.layers[l]) == Occ(s.layers[l]) { SameSlotsSameOcc(t.layers[l], s.layers[l]); }
    forall x: nat ensures Occupied(t.layers, x) <==> Occupied(s.layers, x) {
      if l :| 0 <= l < |s.layers| && x in Occ(s.layers[l]) { assert x in Occ(t.layers[l]); }
      if l :| 0 <= l < |s.layers| && x in Occ(t.layers[l]) { assert x in Occ(s.layers[l]); }
    }
  }

  lemma {:induction false} ForgottenLayers(s: State)
    requires GhostLists(s) && Shape(s)
    ensures LayersInv(s) <==> LayersInv(Forgotten(s)) && GhostsAbsent(s)
  {
    forall l | 0 <= l < |s.layers|
      ensures LayerInv(s.layers[l], s.nExpert, s.nSlot) <==>
              LayerInv(Forgotten(s).layers[l], s.nExpert, s.nSlot)
              && forall e :: e in s.layers[l].ghosts && e < s.nExpert ==> s.layers[l].ent[e].seg == NotCached
    {
      ForgottenLayer(s.layers[l], s.nExpert, s.nSlot);
    }
  }

  /** The invariant is the invariant without the ghosts, plus that no ghost is cached. */
  lemma {:induction false} InvForgotten(s: State)
    requires GhostLists(s) && Shape(s)
    ensures Inv(s) <==> Inv(Forgotten(s)) && GhostsAbsent(s)
  {
    ForgottenSlots(s);
    ForgottenLayers(s);
  }

  /** Pinning does not look at ghosts. */
  lemma {:induction false} PinSomeForgets(s: State, l: nat, es: seq<nat>)
    requires Shape(s) && l < |s.layers| && QueueIn(es, s.nExpert)
    ensures Shape(Forgotten(s)) && PinSome(Forgotten(s), l, es) == Forgotten(PinSome(s, l, es))
    decreases |es|
  {
    if |es| > 0 && |s.free| > 0 {
      var e := es[0];
      if s.layers[l].ent[e].seg == NotCached {
        assert PinOne(Forgotten(s), l, e) == Forgotten(PinOne(s, l, e));
        PinSomeForgets(PinOne(s, l, e), l, es[1..]);
      } else {
        PinSomeForgets(s, l, es[1..]);
      }
    }
  }

  lemma {:induction false} PinAllForgets(s: State, orders: seq<seq<nat>>, perLayer: nat, n: nat)
    requires Shape(s) && Orders(s, orders, perLayer) && n <= |s.layers|
    ensures Shape(Forgotten(s)) && PinAll(Forgotten(s), orders, perLayer, n) == Forgotten(PinAll(s, orders, perLayer, n))
  {
    if n > 0 {
      PinAllForgets(s, orders, perLayer, n - 1);
      PinAllStep(s, orders, perLayer, n);
      PinAllStep(Forgotten(s), orders, perLayer, n);
      PinSomeForgets(PinAll(s, orders, perLayer, n - 1), n - 1, orders[n - 1][..perLayer]);
    }
  }

  lemma {:induction false} PinAllGhosts(s: State, orders: seq<seq<nat>>, perLayer: nat, n: nat)
    requires Shape(s) && Orders(s, orders, perLayer) && n <= |s.layers|
    ensures forall l :: 0 <= l < |s.layers| ==> PinAll(s, orders, perLayer, n).layers[l].ghosts == s.layers[l].ghosts
  {
    if n > 0 {
      PinAllGhosts(s, orders, perLayer, n - 1);
      PinAllStep(s, orders, perLayer, n);
      PinSomeGhosts(PinAll(s, orders, perLayer, n - 1), n - 1, orders[n - 1][..perLayer]);
    }
  }

  lemma {:induction false} PinSomeGhosts(s: State, l: nat, es: seq<nat>)
    requires Shape(s) && l < |s.layers| && QueueIn(es, s.nExpert)
    ensures |PinSome(s, l, es).layers| == |s.layers|
    ensures forall k :: 0 <= k < |s.layers| ==> PinSome(s, l, es).layers[k].ghosts == s.layers[k].ghosts
  {
    PinSomeEffect(s, l, es);
  }

  lemma {:induction false} ValidGhosts(s: State)
    requires Inv(s)
    ensures Shape(s) && GhostLists(s) && GhostsAbsent(s)
  {
    InvTidy(s);
    forall l, e | 0 <= l < |s.layers| && e in s.layers[l].ghosts && e < |s.layers[l].ent|
      ensures s.layers[l].ent[e].seg == NotCached
    {
      assert LayerInv(s.layers[l], s.nExpert, s.nSlot) && Placed(s.layers[l], e);
    }
  }

  /** Pinning at any time keeps the invariant exactly if no ghost ends up pinned. */
  lemma {:induction false} PinAllKeepsIff(s: State, orders: seq<seq<nat>>, perLayer: nat, n: nat)
    requires Inv(s) && Shape(s) && Orders(s, orders, perLayer) && n <= |s.layers|
    ensures Inv(PinAll(s, orders, perLayer, n)) <==> GhostsAbsent(PinAll(s, orders, perLayer, n))
  {
    ValidGhosts(s);
    InvForgotten(s);
    PinAllForgets(s, orders, perLayer, n);
    PinAllGhosts(s, orders, perLayer, n);
    PinAllKeeps(Forgotten(s), orders, perLayer, n);
    InvForgotten(PinAll(s, orders, perLayer, n));
  }

  // ---------------------------------------------------------------------------
  // End of a step, and runs
  // ---------------------------------------------------------------------------

  function GhostHits(layers: seq<Layer>): seq<nat> {
    seq(|layers|, l requires 0 <= l < |layers| => layers[l].ghostHits)
  }

  function ClearHits(layers: seq<Layer>): seq<Layer> {
    seq(|layers|, l requires 0 <= l < |layers| => layers[l].(ghostHits := 0))
  }

  /** The period divides the step count. */
  predicate AdaptOk(a: QuotaModel.Adapt) { a.on ==> a.period >= 1 }

  function EndStep(s: State, a: QuotaModel.Adapt): State
    requires |s.layers| == |s.quota| > 0 && AdaptOk(a)
  {
    var t := s.(step := s.step + 1);
    if a.on && t.step % a.period == 0 then
      t.(quota := QuotaModel.Rebalanced(a, s.nExpert, s.nSlot, s.quota, GhostHits(s.layers)), layers := ClearHits(s.layers))
    else t
  }

  lemma {:induction false} EndStepKeeps(s: State, a: QuotaModel.Adapt)
    requires Inv(s) && |s.layers| > 0 && AdaptOk(a)
    ensures Inv(EndStep(s, a))
  {
    var c := if a.on && (s.step + 1) % a.period == 0 then s.(layers := ClearHits(s.layers)) else s;
    ClearKeeps(s);
    var quota := EndStepIs(s, a, c);
    Retimed(c, s.step + 1, quota);
  }

  /** A step ends with the clock one further. At the end of a period, and only if adaptation is
      on, the quotas are rebalanced and every layer's ghost hits start from zero again. */
  lemma {:induction false} EndStepEffect(s: State, a: QuotaModel.Adapt)
    requires |s.layers| == |s.quota| > 0 && AdaptOk(a)
    ensures var t := EndStep(s, a);
      && t.step == s.step + 1 && |t.layers| == |s.layers| && t == s.(step := t.step, layers := t.layers, quota := t.quota)
      && (if a.on && (s.step + 1) % a.period == 0
          then t.quota == QuotaModel.Rebalanced(a, s.nExpert, s.nSlot, s.quota, GhostHits(s.layers))
               && forall l :: 0 <= l < |s.layers| ==> t.layers[l] == s.layers[l].(ghostHits := 0)
          else t.quota == s.quota && t.layers == s.layers)
  {
  }

  /** The slot count asked for, else the nearest to the fraction of all experts. */
  lemma {:induction false} SlotCountNearest(nLayer: nat, nExpert: nat, slots: nat, cacheFrac: real)
    requires cacheFrac >= 0.0
    ensures slots > 0 ==> SlotCount(nLayer, nExpert, slots, cacheFrac) == slots
    ensures slots == 0 ==>
      -0.5 < SlotCount(nLayer, nExpert, slots, cacheFrac) as real - (nLayer * nExpert) as real * cacheFrac <= 0.5
  {
  }

  /** As many are pinned per layer as is nearest to the fraction, and at least one. */
  lemma {:induction false} PinCountNearest(nExpert: nat, pinRatio: real)
    requires pinRatio >= 0.0
    ensures PinCount(nExpert, pinRatio) >= 1
    ensures -0.5 < PinCount(nExpert, pinRatio) as real - nExpert as real * pinRatio
    ensures PinCount(nExpert, pinRatio) > 1 ==> PinCount(nExpert, pinRatio) as real - nExpert as real * pinRatio <= 0.5
  {
  }

  /** The end of a step may clear the ghost-hit counters; beyond that it sets clock and quotas. */
  lemma {:induction false} EndStepIs(s: State, a: QuotaModel.Adapt, c: State) returns (quota: seq<nat>)
    requires |s.layers| == |s.quota| > 0 && AdaptOk(a)
    requires c == if a.on && (s.step + 1) % a.period == 0 then s.(layers := ClearHits(s.layers)) else s
    ensures |quota| == |s.quota| && EndStep(s, a) == c.(step := s.step + 1, quota := quota)
  {
    quota := EndStep(s, a).quota;
  }

  /** The invariant depends neither on the clock nor on what the quotas are. */
  lemma {:induction false} Retimed(s: State, step: nat, quota: seq<nat>)
    requires Inv(s) && |quota| == |s.quota|
    ensures Inv(s.(step := step, quota := quota))
  {
  }

  /** Clearing the ghost-hit counters keeps the invariant. */
  lemma {:induction false} ClearKeeps(s: State)
    requires Inv(s)
    ensures Inv(s.(layers := ClearHits(s.layers)))
  {
    ClearKeepsLayers(s);
    SlotsClear(s);
    var c := ClearHits(s.layers);
    assert Unpinned(c) == Unpinned(s.layers);
  }

  lemma {:induction false} ClearKeepsLayers(s: State)
    requires LayersInv(s)
    ensures LayersInv(s.(layers := ClearHits(s.layers)))
    ensures forall l :: 0 <= l < |s.layers| ==> Occ(ClearHits(s.layers)[l]) == Occ(s.layers[l])
  {
    var c := ClearHits(s.layers);
    forall l | 0 <= l < |c| ensures LayerInv(c[l], s.nExpert, s.nSlot) && Occ(c[l]) == Occ(s.layers[l]) {
      ClearedLayer(s.layers[l], s.nExpert, s.nSlot);
    }
  }

  lemma SlotsClear(s: State)
    requires Slots(s, {})
    requires forall l :: 0 <= l < |s.layers| ==> Occ(ClearHits(s.layers)[l]) == Occ(s.layers[l])
    ensures Slots(s.(layers := ClearHits(s.layers)), {})
  {
    var c := ClearHits(s.layers);
    assert Residents(c) == Residents(s.layers);
    forall x | Occupied(s.layers, x) ensures Occupied(c, x) {
      var l :| 0 <= l < |s.layers| && x in Occ(s.layers[l]);
      assert x in Occ(c[l]);
    }
  }

  lemma ClearedLayer(ly: Layer, n: nat, nSlot: nat)
    requires LayerInv(ly, n, nSlot)
    ensures LayerInv(ly.(ghostHits := 0), n, nSlot) && Occ(ly.(ghostHits := 0)) == Occ(ly)
  {
    var c := ly.(ghostHits := 0);
    forall e | 0 <= e < n ensures Placed(c, e) { assert Placed(ly, e); }
    SameSlotsSameOcc(ly, c);
  }

  /** What the runtime may ask of the cache. */
  datatype Op =
    | Request(l: nat, e: nat, o: Origin)
    | Arrived(l: nat, e: nat, nbytes: nat)
    | Done(l: nat, e: nat)
    | StepEnd

  /** Experts in range; arrivals only for cached experts. */
  predicate Allowed(s: State, op: Op) {
    match op
    case Request(l, e, _) => l < |s.layers| && e < s.nExpert
    case Arrived(l, e, _) => l < |s.layers| && e < s.nExpert && e < |s.layers[l].ent| && s.layers[l].ent[e].seg != NotCached
    case Done(l, e) => l < |s.layers| && e < s.nExpert
    case StepEnd => true
  }

  function Apply(s: State, a: QuotaModel.Adapt, op: Op): State
    requires Shape(s) && |s.layers| > 0 && AdaptOk(a) && Allowed(s, op)
  {
    match op
    case Request(l, e, o) => Acquire(s, l, e, o).s
    case Arrived(l, e, nbytes) => MarkResident(s, l, e, nbytes)
    case Done(l, e) => Release(s, l, e)
    case StepEnd => EndStep(s, a)
  }

  lemma ApplyKeeps(s: State, a: QuotaModel.Adapt, op: Op)
    requires Inv(s) && |s.layers| > 0 && AdaptOk(a) && Allowed(s, op)
    ensures Shape(s)
    ensures var t := Apply(s, a, op);
      Inv(t) && |t.layers| == |s.layers| && t.nExpert == s.nExpert && t.nSlot == s.nSlot
  {
    match op
    case Request(l, e, o) => AcquireKeeps(s, l, e, o); AcquireShape(s, l, e, o);
    case Arrived(l, e, nbytes) => MarkResidentKeeps(s, l, e, nbytes);
    case Done(l, e) => ReleaseKeeps(s, l, e);
    case StepEnd => EndStepKeeps(s, a);
  }

  /** One allowed operation leads from s to t. */
  ghost predicate Step(s: State, a: QuotaModel.Adapt, op: Op, t: State) {
    && Shape(s) && |s.layers| > 0 && AdaptOk(a)
    && Allowed(s, op) && t == Apply(s, a, op)
  }

  ghost predicate IsRun(run: seq<State>, a: QuotaModel.Adapt, ops: seq<Op>) {
    |run| == |ops| + 1 && forall i :: 0 <= i < |ops| ==> Step(run[i], a, ops[i], run[i + 1])
  }

  /** A cache as start-up leaves it: just built, or built and then pinned. */
  ghost predicate Built(s: State, nLayer: nat, nSlot: nat, ghostMult: nat, orders: seq<seq<nat>>, perLayer: nat) {
    && nLayer > 0 && nSlot <= NO_SLOT
    && var c := Init(nLayer, s.nExpert, nSlot, ghostMult);
       s == c || (Shape(c) && Orders(c, orders, perLayer) && s == PinAll(c, orders, perLayer, nLayer))
  }

  lemma {:induction false} BuiltInv(s: State, nLayer: nat, nSlot: nat, ghostMult: nat, orders: seq<seq<nat>>, perLayer: nat)
    requires Built(s, nLayer, nSlot, ghostMult, orders, perLayer)
    ensures Inv(s)
  {
    var c := Init(nLayer, s.nExpert, nSlot, ghostMult);
    InitInv(nLayer, s.nExpert, nSlot, ghostMult);
    if s != c { PinAllKeeps(c, orders, perLayer, nLayer); }
  }

  /** Every state of every run of a freshly built cache, pinned or not, satisfies the invariant. */
  lemma {:induction false} RunInv(run: seq<State>, a: QuotaModel.Adapt, ops: seq<Op>, k: nat, nLayer: nat, nSlot: nat,
                                  ghostMult: nat, orders: seq<seq<nat>>, perLayer: nat)
    requires IsRun(run, a, ops) && k < |run| && Built(run[0], nLayer, nSlot, ghostMult, orders, perLayer)
    ensures Inv(run[k])
  {
    if k == 0 {
      BuiltInv(run[0], nLayer, nSlot, ghostMult, orders, perLayer);
    } else {
      RunInv(run, a, ops, k - 1, nLayer, nSlot, ghostMult, orders, perLayer);
      assert Step(run[k - 1], a, ops[k - 1], run[k]);
      ApplyKeeps(run[k - 1], a, ops[k - 1]);
    }
  }
}
