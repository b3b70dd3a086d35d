/** The replacement policy as a user of the cache sees it: who is evicted next, which slot a
    request is answered with, and what a reference earns. */
module CachePolicy {
  import opened Arithmetic
  import opened Seqs
  import opened CacheModel
  import opened CacheInvariants
  import opened SlotConservation
  import opened CacheReachability
  import opened LayerIsolation
  import opened Exhaustion

  // ---------------------------------------------------------------------------
  // What a request that misses is answered
  // ---------------------------------------------------------------------------

  /** A layer with a free slot gives a new expert the top of the free stack. */
  lemma {:induction false} FreeAnswer(c: State, e: nat)
    requires Plain(c) && c.quota == [c.nSlot] && e < c.nExpert && !Cached(c, e)
    requires c.layers[0].resident < c.nSlot && |c.free| > 0 && c.free[|c.free| - 1] != NO_SLOT
    ensures Shape(c)
    ensures var r, k := Acquire(c, 0, e, Demand), |c.free| - 1;
      && !r.hit && r.slot == c.free[k] && r.s.free == c.free[..k]
      && r.s.layers == [AdmitLayer(MissLayer(c.layers[0], e, c.step), e, c.free[k], Demand, e in c.layers[0].ghosts)]
  {
    MissShape(c, 0, e);
  }

  /** A layer with every slot taken gives a new expert the slot its own eviction frees. */
  lemma {:induction false} FullAnswer(c: State, e: nat, x: nat)
    requires Plain(c) && c.quota == [c.nSlot] && e < c.nExpert && !Cached(c, e) && c.layers[0].resident >= c.nSlot
    requires LayerShape(MissLayer(c.layers[0], e, c.step), c.nExpert) && x != NO_SLOT
    requires EvictLayer(MissLayer(c.layers[0], e, c.step), c.nSlot * c.ghostMult).freed == Some(x)
    ensures Shape(c) && Acquire(c, 0, e, Demand).slot == x && !Acquire(c, 0, e, Demand).hit
    ensures var a := EvictLayer(MissLayer(c.layers[0], e, c.step), c.nSlot * c.ghostMult).ly;
      && e < |a.ent| && e < |a.slot| && Acquire(c, 0, e, Demand).s.free == c.free
      && Acquire(c, 0, e, Demand).s.layers == [AdmitLayer(a, e, x, Demand, e in c.layers[0].ghosts)]
  {
    MissShape(c, 0, e);
    AllocAtQuota(MissState(c, 0, e), 0);
    AllocShape(MissState(c, 0, e), 0);
  }

  // ---------------------------------------------------------------------------
  // One-shot experts take turns
  // ---------------------------------------------------------------------------

  /** Experts requested on demand and released at once, one after the other. */
  ghost function OneShots(s: State, es: seq<nat>): (t: State)
    requires Plain(s) && QueueIn(es, s.nExpert)
    ensures Plain(t) && t.nExpert == s.nExpert && t.nSlot == s.nSlot
  {
    if |es| == 0 then s
    else
      var t := OneShots(s, es[..|es| - 1]);
      AcquireShape(t, 0, es[|es| - 1], Demand);
      Release(Acquire(t, 0, es[|es| - 1], Demand).s, 0, es[|es| - 1])
  }

  /** Nobody is in SMALL or in use, some slot is free, and none of es is cached or remembered. */
  ghost predicate Ready(s: State, es: seq<nat>) {
    && Solo(s) && Plain(s) && s.layers[0].small == [] && |s.free| > 0
    && NoDup(es) && QueueIn(es, s.nExpert)
    && (forall e :: 0 <= e < s.nExpert ==> Ent(s, e).rc == 0)
    && (forall e :: e in es ==> !Cached(s, e) && e !in s.layers[0].ghosts)
  }

  /** The slots that were free, in the order the stack hands them out, over and over. */
  function Turn(free: seq<nat>, i: nat): nat
    requires |free| > 0
  {
    free[|free| - 1 - i % |free|]
  }

  /** The first of the experts that is still cached after n of them, with m slots. */
  function Oldest(n: nat, m: nat): nat {
    if n <= m then 0 else n - m
  }

  /** After the first n: the latest of them are in SMALL, in order of their requests, in the
      slots whose turn it was; everybody else is as before. */
  ghost predicate Queued(a: Layer, free: seq<nat>, b: Layer, es: seq<nat>, n: nat)
    requires |free| > 0
  {
    && n <= |es| && |a.ent| == |b.ent| && LayerShape(b, |b.ent|) && QueueIn(es, |b.ent|)
    && InOrder(a, |free|, b, es, n) && InTurn(a, free, b, es, n)
  }

  ghost predicate InOrder(a: Layer, m: nat, b: Layer, es: seq<nat>, n: nat)
    requires n <= |es|
  {
    && b.small == es[Oldest(n, m)..n] && b.main == a.main && b.resident == a.resident + n - Oldest(n, m)
    && (forall e :: e in b.ghosts ==> e in a.ghosts || e in es[..n])
  }

  ghost predicate InTurn(a: Layer, free: seq<nat>, b: Layer, es: seq<nat>, n: nat)
    requires |free| > 0 && n <= |es| && |a.ent| == |b.ent| && QueueIn(es, |b.ent|)
  {
    && (forall e :: 0 <= e < |b.ent| ==> b.ent[e].rc == 0)
    && (forall e :: 0 <= e < |b.ent| && e !in es[..n] ==> b.ent[e] == a.ent[e])
    && (forall i :: Oldest(n, |free|) <= i < n ==> b.ent[es[i]].slot == Turn(free, i))
  }

  /** Expert e, admitted to slot x and released. */
  function Shot(ly: Layer, e: nat, x: nat): Layer
    requires e < |ly.ent| && e < |ly.slot|
  {
    var a := AdmitLayer(ly, e, x, Demand, false);
    a.(ent := a.ent[e := a.ent[e].(rc := 0)])
  }

  lemma {:induction false} QueuedFree(a: Layer, free: seq<nat>, b: Layer, es: seq<nat>, n: nat, step: nat)
    requires |free| > 0 && Queued(a, free, b, es, n) && n < |free| && n < |es| && NoDup(es)
    requires es[n] !in a.ghosts
    ensures Queued(a, free, Shot(MissLayer(b, es[n], step), es[n], Turn(free, n)), es, n + 1)
  {
    var e := es[n];
    assert es[..n + 1] == es[..n] + [e];
    assert e !in b.ghosts;
    assert es[0..n + 1] == es[0..n] + [e];
    TurnNext(a, free, b, Shot(MissLayer(b, e, step), e, Turn(free, n)), es, n);
  }

  /** Expert number n in its slot, and at most the oldest gone. */
  lemma {:induction false} TurnNext(a: Layer, free: seq<nat>, b: Layer, r: Layer, es: seq<nat>, n: nat)
    requires |free| > 0 && n < |es| && |a.ent| == |b.ent| == |r.ent| && QueueIn(es, |b.ent|) && NoDup(es)
    requires InTurn(a, free, b, es, n)
    requires r.ent[es[n]].rc == 0 && r.ent[es[n]].slot == Turn(free, n)
    requires forall d :: 0 <= d < |b.ent| && d != es[n] ==> r.ent[d].rc == b.ent[d].rc
    requires forall d :: 0 <= d < |b.ent| && d != es[n] && !(n >= |free| && d == es[n - |free|]) ==> r.ent[d] == b.ent[d]
    ensures InTurn(a, free, r, es, n + 1)
  {
    assert es[..n + 1] == es[..n] + [es[n]];
    if n >= |free| { assert es[..n][n - |free|] == es[n - |free|]; }
  }

  lemma {:induction false} TurnAgain(free: seq<nat>, n: nat)
    requires |free| > 0 && n >= |free|
    ensures Turn(free, n - |free|) == Turn(free, n)
  {
    var m := |free|;
    DivisionParts(n - m, m);
    ProductNext((n - m) / m, m);
    RemainderUnique(n, (n - m) / m + 1, (n - m) % m, m);
  }

  /** The front of an idle SMALL goes. */
  lemma {:induction false} FrontGoes(b: Layer, gmax: nat)
    requires LayerShape(b, |b.ent|) && |b.small| > 0 && Idle(b.ent[b.small[0]])
    ensures EvictLayer(b, gmax) ==
      Evicted(Drop(b.(small := b.small[1..]), b.small[0], gmax), Some(b.ent[b.small[0]].slot))
  {
    assert FirstIdle(b.small, b.ent) == 0;
    assert Rotate(b.small, 0) == b.small[1..];
  }

  /** The layer after the front of SMALL has gone. */
  function WithoutFront(b: Layer, gmax: nat): Layer
    requires |b.small| > 0 && b.small[0] < |b.ent| && b.small[0] < |b.slot|
  {
    Drop(b.(small := b.small[1..]), b.small[0], gmax)
  }

  lemma {:induction false} FullEvicts(a: Layer, free: seq<nat>, b: Layer, es: seq<nat>, n: nat, step: nat, gmax: nat)
    requires |free| > 0 && Queued(a, free, b, es, n) && |free| <= n < |es| && NoDup(es)
    requires LayerShape(MissLayer(b, es[n], step), |b.ent|)
    ensures |b.small| > 0 && b.small[0] == es[n - |free|]
    ensures EvictLayer(MissLayer(b, es[n], step), gmax) ==
      Evicted(WithoutFront(MissLayer(b, es[n], step), gmax), Some(Turn(free, n)))
  {
    assert b.small[0] == es[n - |free|];
    FrontGoes(MissLayer(b, es[n], step), gmax);
    TurnAgain(free, n);
  }

  lemma {:induction false} GhostsAfter(b: Layer, e: nat, v: nat, step: nat, gmax: nat, y: nat)
    requires |b.small| > 0 && b.small[0] == v < |b.ent| == |b.slot| && e < |b.ent|
    requires y in WithoutFront(MissLayer(b, e, step), gmax).ghosts
    ensures y in b.ghosts || y == v
  {
  }

  lemma {:induction false} QueuedFull(a: Layer, free: seq<nat>, b: Layer, es: seq<nat>, n: nat, step: nat, gmax: nat)
    requires |free| > 0 && Queued(a, free, b, es, n) && |free| <= n < |es| && NoDup(es)
    requires es[n] !in a.ghosts && |b.small| > 0 && b.small[0] == es[n - |free|]
    ensures Queued(a, free, Shot(WithoutFront(MissLayer(b, es[n], step), gmax), es[n], Turn(free, n)), es, n + 1)
  {
    var r := Shot(WithoutFront(MissLayer(b, es[n], step), gmax), es[n], Turn(free, n));
    OrderNext(a, |free|, b, es, n, step, gmax, Turn(free, n));
    TurnNext(a, free, b, r, es, n);
    assert QueueIn(b.ghosts + [es[n - |free|]], |b.ent|);
  }

  lemma {:induction false} OrderNext(a: Layer, m: nat, b: Layer, es: seq<nat>, n: nat, step: nat, gmax: nat, x: nat)
    requires 0 < m <= n < |es| && InOrder(a, m, b, es, n) && |b.ent| == |b.slot| && QueueIn(es, |b.ent|)
    requires |b.small| > 0 && b.small[0] == es[n - m]
    ensures InOrder(a, m, Shot(WithoutFront(MissLayer(b, es[n], step), gmax), es[n], x), es, n + 1)
  {
    var e := es[n];
    var r := Shot(WithoutFront(MissLayer(b, e, step), gmax), e, x);
    assert es[..n + 1] == es[..n] + [e];
    assert r.small == es[n - m + 1..n + 1];
    forall y | y in r.ghosts ensures y in a.ghosts || y in es[..n + 1] {
      GhostsAfter(b, e, es[n - m], step, gmax, y);
      assert es[..n][n - m] == es[n - m];
    }
  }

  /** The free stack after n of them. */
  function FreeAfter(free: seq<nat>, n: nat): seq<nat> {
    if n <= |free| then free[..|free| - n] else []
  }

  ghost predicate Going(s: State, t: State, es: seq<nat>, n: nat) {
    && Ready(s, es) && Solo(t) && Plain(t) && t.nExpert == s.nExpert && t.nSlot == s.nSlot
    && Queued(s.layers[0], s.free, t.layers[0], es, n) && t.free == FreeAfter(s.free, n)
  }

  /** What the state says that the layer does not. */
  lemma {:induction false} GoingFacts(s: State, t: State, es: seq<nat>, n: nat)
    requires Going(s, t, es, n) && n < |es|
    ensures t.quota == [t.nSlot] && |t.layers[0].ent| == t.nExpert && |t.free| + t.layers[0].resident == t.nSlot
    ensures !Cached(t, es[n]) && es[n] !in t.layers[0].ghosts && es[n] !in es[..n]
    ensures Turn(s.free, n) != NO_SLOT
    ensures LayerShape(MissLayer(t.layers[0], es[n], t.step), t.nExpert)
  {
    SoloFacts(t);
    SoloFacts(s);
    assert es[n] in es;
    assert Ent(t, es[n]) == Ent(s, es[n]);
    assert Turn(s.free, n) in s.free;
    MissLayerShape(t.layers[0], es[n], t.step);
  }

  /** One request and release while a slot is free. */
  lemma {:induction false} ShotFree(s: State, t: State, es: seq<nat>, n: nat)
    requires Going(s, t, es, n) && n < |es| && n < |s.free|
    ensures Shape(t) && ShotTo(s, t, es, n)
  {
    GoingFacts(s, t, es, n);
    FreeTurn(s, t, es, n);
  }

  lemma {:induction false} FreeTurn(s: State, t: State, es: seq<nat>, n: nat)
    requires |s.layers| == 1 && Plain(t) && |s.free| > 0 && NoDup(es) && n < |s.free| && n < |es|
    requires Queued(s.layers[0], s.free, t.layers[0], es, n) && t.free == FreeAfter(s.free, n) && es[n] !in s.layers[0].ghosts
    requires t.quota == [t.nSlot] && es[n] < t.nExpert && t.layers[0].resident < t.nSlot
    requires !Cached(t, es[n]) && es[n] !in t.layers[0].ghosts && Turn(s.free, n) != NO_SLOT
    ensures Shape(t) && ShotTo(s, t, es, n)
  {
    SmallRemainder(n, |s.free|);
    assert t.free[|t.free| - 1] == Turn(s.free, n) && t.free[..|t.free| - 1] == FreeAfter(s.free, n + 1);
    FreeShot(t, es[n]);
    QueuedFree(s.layers[0], s.free, t.layers[0], es, n, t.step);
  }

  lemma {:induction false} FreeShot(t: State, e: nat)
    requires Plain(t) && t.quota == [t.nSlot] && e < t.nExpert && !Cached(t, e) && e !in t.layers[0].ghosts
    requires t.layers[0].resident < t.nSlot && |t.free| > 0 && t.free[|t.free| - 1] != NO_SLOT
    ensures Shape(t)
    ensures var r, k := Acquire(t, 0, e, Demand), |t.free| - 1;
      && !r.hit && r.slot == t.free[k] && |r.s.layers| == 1 && e < |r.s.layers[0].ent|
      && Release(r.s, 0, e).layers == [Shot(MissLayer(t.layers[0], e, t.step), e, t.free[k])]
      && Release(r.s, 0, e).free == t.free[..k]
  {
    FreeAnswer(t, e);
    ReleasedShot(t, MissLayer(t.layers[0], e, t.step), e, t.free[|t.free| - 1]);
  }

  /** One request and release when the slots are taken. */
  lemma {:induction false} ShotFull(s: State, t: State, es: seq<nat>, n: nat)
    requires Going(s, t, es, n) && |s.free| <= n < |es|
    ensures Shape(t) && ShotTo(s, t, es, n)
  {
    GoingFacts(s, t, es, n);
    TakenTurn(s, t, es, n);
  }

  lemma {:induction false} TakenTurn(s: State, t: State, es: seq<nat>, n: nat)
    requires |s.layers| == 1 && Plain(t) && |s.free| > 0 && NoDup(es) && |s.free| <= n < |es|
    requires Queued(s.layers[0], s.free, t.layers[0], es, n) && t.free == [] && es[n] !in s.layers[0].ghosts
    requires t.quota == [t.nSlot] && es[n] < t.nExpert && t.layers[0].resident >= t.nSlot
    requires !Cached(t, es[n]) && es[n] !in t.layers[0].ghosts && Turn(s.free, n) != NO_SLOT
    requires LayerShape(MissLayer(t.layers[0], es[n], t.step), t.nExpert)
    ensures Shape(t) && ShotTo(s, t, es, n)
  {
    var gmax := t.nSlot * t.ghostMult;
    FullEvicts(s.layers[0], s.free, t.layers[0], es, n, t.step, gmax);
    FullShot(t, es[n], Turn(s.free, n), WithoutFront(MissLayer(t.layers[0], es[n], t.step), gmax));
    QueuedFull(s.layers[0], s.free, t.layers[0], es, n, t.step, gmax);
  }

  lemma {:induction false} FullShot(t: State, e: nat, x: nat, c: Layer)
    requires Plain(t) && t.quota == [t.nSlot] && e < t.nExpert && !Cached(t, e) && t.layers[0].resident >= t.nSlot
    requires LayerShape(MissLayer(t.layers[0], e, t.step), t.nExpert) && x != NO_SLOT && e !in t.layers[0].ghosts
    requires EvictLayer(MissLayer(t.layers[0], e, t.step), t.nSlot * t.ghostMult) == Evicted(c, Some(x))
    ensures Shape(t) && e < |c.ent| && e < |c.slot|
    ensures var r := Acquire(t, 0, e, Demand);
      && !r.hit && r.slot == x && |r.s.layers| == 1 && e < |r.s.layers[0].ent|
      && Release(r.s, 0, e).layers == [Shot(c, e, x)] && Release(r.s, 0, e).free == t.free
  {
    FullAnswer(t, e, x);
    ReleasedShot(t, c, e, x);
  }

  /** The request misses, is answered with the slot whose turn it is, and its release leaves
      the queue one longer. */
  ghost predicate ShotTo(s: State, t: State, es: seq<nat>, n: nat)
    requires Shape(t) && |t.layers| > 0 && n < |es| && es[n] < t.nExpert && |s.free| > 0 && |s.layers| == 1
  {
    var r := Acquire(t, 0, es[n], Demand);
    && !r.hit && r.slot == Turn(s.free, n) && |r.s.layers| == 1 && es[n] < |r.s.layers[0].ent|
    && Queued(s.layers[0], s.free, Release(r.s, 0, es[n]).layers[0], es, n + 1)
    && Release(r.s, 0, es[n]).free == FreeAfter(s.free, n + 1)
  }

  lemma {:induction false} ShotNext(s: State, t: State, es: seq<nat>, n: nat)
    requires Going(s, t, es, n) && n < |es|
    ensures Shape(t) && ShotTo(s, t, es, n) && Going(s, Release(Acquire(t, 0, es[n], Demand).s, 0, es[n]), es, n + 1)
  {
    ShotSolo(t, es[n]);
    if n < |s.free| { ShotFree(s, t, es, n); } else { ShotFull(s, t, es, n); }
  }

  lemma {:induction false} ReleasedShot(t: State, a: Layer, e: nat, x: nat)
    requires Plain(t) && e < t.nExpert && e < |a.ent| && e < |a.slot|
    requires Acquire(t, 0, e, Demand).s.layers == [AdmitLayer(a, e, x, Demand, false)]
    ensures Release(Acquire(t, 0, e, Demand).s, 0, e).layers == [Shot(a, e, x)]
    ensures Release(Acquire(t, 0, e, Demand).s, 0, e).free == Acquire(t, 0, e, Demand).s.free
  {
  }

  lemma {:induction false} ShotSolo(t: State, e: nat)
    requires Solo(t) && e < t.nExpert
    ensures Shape(t)
    ensures var r := Acquire(t, 0, e, Demand).s;
      && |r.layers| == 1 && e < |r.layers[0].ent|
      && Solo(Release(r, 0, e)) && Plain(Release(r, 0, e))
      && Release(r, 0, e).nExpert == t.nExpert && Release(r, 0, e).nSlot == t.nSlot
  {
    AcquireFixed(t, 0, e, Demand);
    AcquireShape(t, 0, e, Demand);
    var r := Acquire(t, 0, e, Demand).s;
    EntrywiseFixed(r, 0, e, Done(0, e));
    EntrywiseLocal(r, 0, e, Done(0, e));
    SoloFacts(Release(r, 0, e));
  }

  lemma {:induction false} OneShotsNext(s: State, es: seq<nat>, n: nat)
    requires Plain(s) && QueueIn(es, s.nExpert) && n < |es|
    ensures var t := OneShots(s, es[..n]);
      && |Acquire(t, 0, es[n], Demand).s.layers| == 1 && es[n] < |Acquire(t, 0, es[n], Demand).s.layers[0].ent|
      && OneShots(s, es[..n + 1]) == Release(Acquire(t, 0, es[n], Demand).s, 0, es[n])
  {
    assert es[..n + 1][..n] == es[..n];
    AcquireShape(OneShots(s, es[..n]), 0, es[n], Demand);
  }

  lemma {:induction false} GoingFirst(s: State, es: seq<nat>)
    requires Ready(s, es)
    ensures Going(s, s, es, 0)
  {
    SoloFacts(s);
    NobodyUsed(s);
    QueuedFirst(s.layers[0], s.free, es);
  }

  lemma {:induction false} NobodyUsed(s: State)
    requires |s.layers| == 1 && |s.layers[0].ent| == s.nExpert && forall e :: 0 <= e < s.nExpert ==> Ent(s, e).rc == 0
    ensures forall e :: 0 <= e < |s.layers[0].ent| ==> s.layers[0].ent[e].rc == 0
  {
    forall e | 0 <= e < |s.layers[0].ent| ensures s.layers[0].ent[e].rc == 0 { assert Ent(s, e).rc == 0; }
  }

  lemma {:induction false} QueuedFirst(a: Layer, free: seq<nat>, es: seq<nat>)
    requires |free| > 0 && LayerShape(a, |a.ent|) && QueueIn(es, |a.ent|) && a.small == []
    requires forall e :: 0 <= e < |a.ent| ==> a.ent[e].rc == 0
    ensures Queued(a, free, a, es, 0)
  {
  }

  lemma {:induction false} GoingOn(s: State, es: seq<nat>, n: nat)
    requires Ready(s, es) && n <= |es|
    ensures Going(s, OneShots(s, es[..n]), es, n)
  {
    if n == 0 {
      GoingFirst(s, es);
    } else {
      GoingOn(s, es, n - 1);
      ShotNext(s, OneShots(s, es[..n - 1]), es, n - 1);
      OneShotsNext(s, es, n - 1);
    }
  }

  /** First in, first out: experts requested once on demand are answered with the free slots
      in turn, so that with m of them each takes the slot of the m-th before it, and whoever
      was in MAIN keeps its slot, whatever the number of requests. */
  lemma {:induction false} OneShotsTakeTurns(s: State, es: seq<nat>, n: nat)
    requires Ready(s, es) && n < |es|
    ensures var t, m := OneShots(s, es[..n]), |s.free|;
      && Shape(t) && !Acquire(t, 0, es[n], Demand).hit
      && Acquire(t, 0, es[n], Demand).slot == s.free[m - 1 - n % m]
    ensures var t := OneShots(s, es[..n]);
      && |t.layers[0].ent| == s.nExpert && |s.layers[0].ent| == s.nExpert
      && forall e :: 0 <= e < s.nExpert && Cached(s, e) ==> Ent(t, e) == Ent(s, e)
  {
    GoingOn(s, es, n);
    ShotNext(s, OneShots(s, es[..n]), es, n);
    SoloFacts(s);
  }

  /** On a fresh cache, request number i of experts requested once gets slot i modulo the
      number of slots: every slot in turn, then the slot of the expert nSlot requests ago. */
  lemma {:induction false} FreshTakesTurns(nExpert: nat, nSlot: nat, ghostMult: nat, es: seq<nat>, n: nat)
    requires 1 <= nSlot <= NO_SLOT && NoDup(es) && QueueIn(es, nExpert) && n < |es|
    ensures var c := Init(1, nExpert, nSlot, ghostMult);
      && Plain(c)
      && var t := OneShots(c, es[..n]);
         && Shape(t) && !Acquire(t, 0, es[n], Demand).hit && Acquire(t, 0, es[n], Demand).slot == n % nSlot
  {
    var c := Init(1, nExpert, nSlot, ghostMult);
    InitFixed(1, nExpert, nSlot, ghostMult);
    SoloFacts(c);
    FreshReady(c, es, nExpert, nSlot, ghostMult);
    OneShotsTakeTurns(c, es, n);
    DivisionParts(n, nSlot);
  }

  lemma {:induction false} FreshReady(c: State, es: seq<nat>, nExpert: nat, nSlot: nat, ghostMult: nat)
    requires nSlot >= 1 && c == Init(1, nExpert, nSlot, ghostMult) && Solo(c) && Plain(c)
    requires NoDup(es) && QueueIn(es, nExpert)
    ensures Ready(c, es) && |c.free| == nSlot && forall k :: 0 <= k < nSlot ==> c.free[k] == nSlot - 1 - k
  {
  }

  // ---------------------------------------------------------------------------
  // Where an admitted expert goes
  // ---------------------------------------------------------------------------

  /** A ghost goes to the back of MAIN, a low-confidence prefetch to the front of SMALL,
      everybody else to its back; with one reference, no second chance, and no bytes yet. */
  lemma {:induction false} AdmissionPlace(s: State, e: nat, o: Origin)
    requires Solo(s) && e < s.nExpert && |s.layers[0].ent| == s.nExpert && !Cached(s, e)
    ensures Shape(s)
    ensures var r := Acquire(s, 0, e, o);
      r.slot != NO_SLOT ==>
        && |r.s.layers| == 1 && |r.s.layers[0].ent| == s.nExpert
        && var t, known := r.s.layers[0], e in s.layers[0].ghosts;
           && t.ent[e] == Entry(r.slot, 1, if known then Main else Small, false, 1, s.step)
           && (known ==> |t.main| > 0 && t.main[|t.main| - 1] == e)
           && (!known ==> |t.small| > 0 && t.small[if o == PrefetchLow then 0 else |t.small| - 1] == e)
  {
    AcquireLocal(s, 0, e, o);
    AcquireShape(s, 0, e, o);
    AbsentFacts(s, e);
    if o != Sweep {
      AllocKeepsEntry(MissLayer(s.layers[0], e, s.step), s.quota[0], s.ghostMult, e);
      Admitted(AfterAlloc(MissLayer(s.layers[0], e, s.step), s.quota[0], s.ghostMult).0, e, Acquire(s, 0, e, o).slot, o,
               e in s.layers[0].ghosts);
    }
  }

  lemma {:induction false} Admitted(a: Layer, e: nat, x: nat, o: Origin, known: bool)
    requires e < |a.ent| && e < |a.slot|
    ensures var t := AdmitLayer(a, e, x, o, known);
      && |t.ent| == |a.ent| && t.ent[e] == a.ent[e].(slot := x, rc := 1, resident := false, seg := if known then Main else Small)
      && (known ==> |t.main| > 0 && t.main[|t.main| - 1] == e)
      && (!known ==> |t.small| > 0 && t.small[if o == PrefetchLow then 0 else |t.small| - 1] == e)
  {
  }

  lemma {:induction false} AbsentFacts(s: State, e: nat)
    requires Solo(s) && e < s.nExpert && |s.layers[0].ent| == s.nExpert && !Cached(s, e)
    ensures |s.quota| == 1 && LayerShape(s.layers[0], s.nExpert)
    ensures Ent(s, e).slot == NO_SLOT && Ent(s, e).rc == 0 && !Ent(s, e).resident
    ensures e !in s.layers[0].small && e !in s.layers[0].main
    ensures LayerShape(MissLayer(s.layers[0], e, s.step), s.nExpert)
  {
    SoloFacts(s);
    assert Placed(s.layers[0], e) && EntryOk(Ent(s, e), s.nSlot);
    MissLayerShape(s.layers[0], e, s.step);
  }

  /** Making room does not touch who is not queued. */
  lemma {:induction false} AllocKeepsEntry(ly: Layer, quota: nat, ghostMult: nat, e: nat)
    requires LayerShape(ly, |ly.ent|) && e < |ly.ent| && e !in ly.small && e !in ly.main
    ensures AfterAlloc(ly, quota, ghostMult).0.ent[e] == ly.ent[e]
  {
  }

  /** An idle expert at the front of SMALL is the next to go, whoever else is idle. */
  lemma {:induction false} FrontGoesNext(s: State, v: nat, d: nat)
    requires Solo(s) && Plain(s) && s.layers[0].resident == s.nSlot && d < s.nExpert && !Cached(s, d)
    requires |s.layers[0].small| > 0 && s.layers[0].small[0] == v && Ent(s, v).rc == 0
    ensures Shape(s) && !Acquire(s, 0, d, Demand).hit && Acquire(s, 0, d, Demand).slot == Ent(s, v).slot != NO_SLOT
  {
    SoloFacts(s);
    AbsentFacts(s, d);
    assert Placed(s.layers[0], v) && EntryOk(Ent(s, v), s.nSlot);
    FrontGoes(MissLayer(s.layers[0], d, s.step), s.nSlot * s.ghostMult);
    FullAnswer(s, d, Ent(s, v).slot);
  }

  /** A low-confidence prefetch that nobody has used by then gives its slot to the next expert
      that needs one. */
  lemma {:induction false} PrefetchLowGoesFirst(s: State, e: nat, d: nat)
    requires Solo(s) && Plain(s) && e < s.nExpert && !Cached(s, e) && e !in s.layers[0].ghosts && d < s.nExpert && d != e
    requires Acquire(s, 0, e, PrefetchLow).slot != NO_SLOT
    ensures Shape(s)
    ensures var r := Acquire(s, 0, e, PrefetchLow);
      && |r.s.layers| == 1 && |r.s.layers[0].ent| == s.nExpert
      && var t := Release(r.s, 0, e);
         && Shape(t) && |t.layers[0].ent| == s.nExpert
         && (t.layers[0].resident == t.nSlot && !Cached(t, d) ==> Acquire(t, 0, d, Demand).slot == r.slot)
  {
    AdmissionPlace(s, e, PrefetchLow);
    var r := Acquire(s, 0, e, PrefetchLow).s;
    AcquireFixed(s, 0, e, PrefetchLow);
    EntrywiseFixed(r, 0, e, Done(0, e));
    EntrywiseLocal(r, 0, e, Done(0, e));
    AcquireShape(s, 0, e, PrefetchLow);
    var t := Release(r, 0, e);
    SoloFacts(t);
    if t.layers[0].resident == t.nSlot && !Cached(t, d) { FrontGoesNext(t, e, d); }
  }

  // ---------------------------------------------------------------------------
  // What a reference earns
  // ---------------------------------------------------------------------------

  /** q without its only e. */
  ghost predicate Loses(q: seq<nat>, e: nat, r: seq<nat>) {
    exists i :: 0 <= i < |q| && q[i] == e && r == q[..i] + q[i + 1..]
  }

  /** A hit: one reference more as 16 bits count, one second chance more up to three, a one-shot
      expert moves to the back of MAIN, and nobody else is affected. */
  lemma {:induction false} HitEarns(s: State, l: nat, e: nat, o: Origin)
    requires Inv(s) && l < |s.layers| && e < s.nExpert && |s.layers[l].ent| == s.nExpert && s.layers[l].ent[e].seg != NotCached
    ensures Shape(s)
    ensures var r := Acquire(s, l, e, o);
      && r.hit && r.slot == s.layers[l].ent[e].slot && |r.s.layers| == |s.layers|
      && var a, b, en := s.layers[l], r.s.layers[l], s.layers[l].ent[e];
         && b.ent == a.ent[e := en.(rc := (en.rc + 1) % 65536, freq := if en.freq < 3 then en.freq + 1 else 3,
                                    seg := if en.seg == Small then Main else en.seg, last := s.step)]
         && b.slot == a.slot && b.ghosts == a.ghosts && b.ghostHits == a.ghostHits
         && b.resident == a.resident && b.pinned == a.pinned
         && (if en.seg == Small then b.main == a.main + [e] && Loses(a.small, e, b.small)
             else b.main == a.main && b.small == a.small)
         && r.s.layers == s.layers[l := b] && r.s.free == s.free && r.s.quota == s.quota && r.s.step == s.step
         && r.s.stats == s.stats.(hit := s.stats.hit + 1,
              hitPinned := s.stats.hitPinned + (if en.seg == Pinned then 1 else 0),
              hitMain := s.stats.hitMain + (if en.seg == Main then 1 else 0),
              hitSmall := s.stats.hitSmall + (if en.seg == Small then 1 else 0),
              promote := s.stats.promote + (if en.seg == Small then 1 else 0))
  {
    InvTidy(s);
    var a := s.layers[l];
    assert Placed(a, e) && EntryOk(a.ent[e], s.nSlot);
    if a.ent[e].seg == Small {
      var i := Find(a.small, e);
      assert a.small[i] == e;
    }
  }

  /** A prefill sweep's miss changes nothing that is cached, queued or free. */
  lemma {:induction false} SweepLeaves(s: State, l: nat, e: nat)
    requires Inv(s) && l < |s.layers| && e < s.nExpert && |s.layers[l].ent| == s.nExpert && s.layers[l].ent[e].seg == NotCached
    ensures Shape(s)
    ensures var r := Acquire(s, l, e, Sweep);
      && !r.hit && r.slot == 0xFFFF_FFFF && |r.s.layers| == |s.layers|
      && var a, b := s.layers[l], r.s.layers[l];
         && b == a.(ent := b.ent, ghosts := b.ghosts, ghostHits := b.ghostHits)
         && b.ent == a.ent[e := a.ent[e].(freq := 1, last := s.step)]
         && r.s == s.(layers := s.layers[l := b], stats := r.s.stats)
  {
    InvTidy(s);
  }

  /** A miss of a ghost is remembered once as a ghost hit, and the expert is a ghost no more. */
  lemma {:induction false} GhostHitCounted(s: State, l: nat, e: nat, o: Origin)
    requires Inv(s) && l < |s.layers| && e < s.nExpert && |s.layers[l].ent| == s.nExpert && s.layers[l].ent[e].seg == NotCached
    ensures Shape(s)
    ensures var r, ghosts := Acquire(s, l, e, o).s, s.layers[l].ghosts;
      && |r.layers| == |s.layers|
      && r.layers[l].ghostHits == s.layers[l].ghostHits + (if e in ghosts then 1 else 0)
      && r.stats.ghostHit == s.stats.ghostHit + (if e in ghosts then 1 else 0)
      && (forall k :: 0 <= k < |s.layers| && k != l ==> r.layers[k].ghostHits == s.layers[k].ghostHits)
  {
    InvTidy(s);
    MissShape(s, l, e);
    if o != Sweep { AllocHits(MissState(s, l, e), l); }
    AcquireHits(s, l, e, o);
  }

  /** What a miss counts, it counts before it allocates. */
  lemma {:induction false} AcquireHits(s: State, l: nat, e: nat, o: Origin)
    requires Shape(s) && l < |s.layers| && e < s.nExpert && s.layers[l].ent[e].seg == NotCached && Shape(MissState(s, l, e))
    requires var m := MissState(s, l, e); o != Sweep ==> SameHits(m, AllocSlot(m, l).0)
    ensures SameHits(MissState(s, l, e), Acquire(s, l, e, o).s)
  {
    MissShape(s, l, e);
    AllocShape(MissState(s, l, e), l);
  }

  /** The same ghost hits are counted. */
  ghost predicate SameHits(s: State, a: State) {
    && |a.layers| == |s.layers| && a.stats.ghostHit == s.stats.ghostHit
    && forall k :: 0 <= k < |s.layers| ==> a.layers[k].ghostHits == s.layers[k].ghostHits
  }

  /** Allocation counts no ghost hit. */
  lemma {:induction false} AllocHits(s: State, l: nat)
    requires Shape(s) && l < |s.layers|
    ensures SameHits(s, AllocSlot(s, l).0)
  {
    var r := if s.layers[l].resident >= s.quota[l] then EvictOne(s, l).0 else s;
    EvictHits(s, l);
    EvictShape(s, l);
    EvictHits(r, VictimLayer(r, l));
  }

  lemma {:induction false} EvictHits(s: State, l: nat)
    requires Shape(s) && l < |s.layers|
    ensures SameHits(s, EvictOne(s, l).0)
  {
  }

  /** Every request is counted as exactly one hit or miss, and a miss as exactly one admission
      unless it was a sweep or refused. */
  lemma {:induction false} RequestCounted(s: State, l: nat, e: nat, o: Origin)
    requires Inv(s) && l < |s.layers| && e < s.nExpert
    ensures Shape(s)
    ensures var r := Acquire(s, l, e, o);
      && r.s.stats.hit == s.stats.hit + (if r.hit then 1 else 0)
      && r.s.stats.miss == s.stats.miss + (if r.hit then 0 else 1)
      && r.s.stats.admit == s.stats.admit + (if !r.hit && r.slot != NO_SLOT then 1 else 0)
      && r.s.stats.bypass == s.stats.bypass + (if !r.hit && o == Sweep then 1 else 0)
      && r.s.stats.bytesFetched == s.stats.bytesFetched
  {
    InvTidy(s);
    CachedHasSlot(s, l, e);
    if s.layers[l].ent[e].seg == NotCached && o != Sweep {
      MissShape(s, l, e);
      AllocCounts(MissState(s, l, e), l);
    }
  }

  lemma {:induction false} CachedHasSlot(s: State, l: nat, e: nat)
    requires Inv(s) && l < |s.layers| && e < s.nExpert
    ensures |s.layers[l].ent| == s.nExpert && (s.layers[l].ent[e].seg != NotCached ==> s.layers[l].ent[e].slot != NO_SLOT)
  {
    assert EntryOk(s.layers[l].ent[e], s.nSlot);
  }

  lemma {:induction false} AllocCounts(s: State, l: nat)
    requires Shape(s) && l < |s.layers|
    ensures var a := AllocSlot(s, l).0.stats;
      a == s.stats.(evict := a.evict)
  {
    EvictShape(s, l);
  }

  /** Bytes arrive once: marking an expert a second time changes nothing. */
  lemma {:induction false} ArrivesOnce(s: State, l: nat, e: nat, nbytes: nat, again: nat)
    requires l < |s.layers| && e < |s.layers[l].ent|
    ensures var t := MarkResident(s, l, e, nbytes);
      && |t.layers| == |s.layers| && e < |t.layers[l].ent| && t.layers[l].ent[e] == s.layers[l].ent[e].(resident := true)
      && t.stats.bytesFetched == s.stats.bytesFetched + (if s.layers[l].ent[e].resident then 0 else nbytes)
      && MarkResident(t, l, e, again) == t
  {
  }

  // ---------------------------------------------------------------------------
  // Which layer gives way
  // ---------------------------------------------------------------------------

  /** Evicting from a layer leaves there what EvictionTrace says, with as many ghosts as its
      quota times the multiplier, and the victim's slot on top of the free stack. */
  lemma {:induction false} EvictOneLeavesTrace(s: State, l: nat)
    requires Inv(s) && l < |s.layers| && EvictOne(s, l).1
    ensures var t, v := EvictOne(s, l).0, Victim(s.layers[l]);
      && v.Some? && v.value < s.nExpert && |s.layers[l].ent| == s.nExpert && |t.layers| == |s.layers|
      && GivenUp(s.layers[l], t.layers[l], v.value, s.quota[l] * s.ghostMult)
      && t.free == s.free + [s.layers[l].ent[v.value].slot] && t.stats == s.stats.(evict := s.stats.evict + 1)
  {
    InvTidy(s);
    EvictedTrace(s.layers[l], s.quota[l] * s.ghostMult, s.nExpert, s.nSlot);
  }

  lemma {:induction false} EvictedTrace(ly: Layer, gmax: nat, n: nat, nSlot: nat)
    requires LayerInv(ly, n, nSlot)
    ensures var ev, v := EvictLayer(ly, gmax), Victim(ly);
      ev.freed.Some? ==> v.Some? && v.value < n && ev.freed.value == ly.ent[v.value].slot && GivenUp(ly, ev.ly, v.value, gmax)
  {
    EvictKeepsLayer(ly, gmax, n, nSlot);
    if Victim(ly).Some? { var k := EvictionTrace(ly, gmax, n, nSlot); }
  }

  /** Layer w holds something unpinned and is over its quota by at least as much as any other
      such layer, and by more than those before it. */
  ghost predicate FurthestOver(s: State, w: nat)
    requires |s.quota| == |s.layers|
  {
    && w < |s.layers| && s.layers[w].resident > s.layers[w].pinned
    && forall k :: 0 <= k < |s.layers| && s.layers[k].resident > s.layers[k].pinned ==>
         var over, most := s.layers[k].resident - s.quota[k], s.layers[w].resident - s.quota[w];
         over <= most && (k < w ==> over < most)
  }

  /** A steal takes from the first of the layers furthest over their quotas, or, if nothing
      unpinned is cached anywhere, tries the requesting layer. */
  lemma {:induction false} StealsFromFurthest(s: State, l: nat)
    requires |s.quota| == |s.layers| && l < |s.layers|
    ensures FurthestOver(s, VictimLayer(s, l)) ||
      (VictimLayer(s, l) == l && forall k :: 0 <= k < |s.layers| ==> s.layers[k].resident <= s.layers[k].pinned)
  {
    WorstIsFurthest(s, |s.layers|);
  }

  lemma {:induction false} WorstIsFurthest(s: State, n: nat)
    requires |s.quota| == |s.layers| && n <= |s.layers|
    ensures match WorstLayer(s, n)
      case None => forall k :: 0 <= k < n ==> s.layers[k].resident <= s.layers[k].pinned
      case Some(w) =>
        && w < n && s.layers[w].resident > s.layers[w].pinned
        && forall k :: 0 <= k < n && s.layers[k].resident > s.layers[k].pinned ==>
             s.layers[k].resident - s.quota[k] <= s.layers[w].resident - s.quota[w]
             && (k < w ==> s.layers[k].resident - s.quota[k] < s.layers[w].resident - s.quota[w])
  {
    if n > 0 { WorstIsFurthest(s, n - 1); }
  }

  /** With every slot taken and its own quota not reached, a layer's request evicts in the
      layer furthest over its quota, and nowhere else. */
  lemma {:induction false} StealTakesThere(s: State, l: nat)
    requires Inv(s) && l < |s.layers| && s.layers[l].resident < s.quota[l] && s.free == []
    ensures Shape(s)
    ensures var v, a := VictimLayer(s, l), AllocSlot(s, l);
      && v < |s.layers| && |a.0.layers| == |s.layers|
      && (forall k :: 0 <= k < |s.layers| && k != v ==> a.0.layers[k] == s.layers[k])
      && (if HasIdle(s.layers[v]) then Victim(s.layers[v]).Some? && Victim(s.layers[v]).value < |s.layers[v].ent|
            && a.1 == s.layers[v].ent[Victim(s.layers[v]).value].slot && a.0.free == []
          else a.0 == s && a.1 == NO_SLOT)
  {
    InvTidy(s);
    StealsFromFurthest(s, l);
    var v := VictimLayer(s, l);
    EvictShape(s, v);
    EvictOneKeeps(s, v);
    if HasIdle(s.layers[v]) {
      EvictOneLeavesTrace(s, v);
      assert (s.free + [s.layers[v].ent[Victim(s.layers[v]).value].slot])[..0] == [];
    }
  }

  /** A release takes off one reference, if there is one, and changes nothing else. */
  lemma {:induction false} ReleaseTakesOne(s: State, l: nat, e: nat)
    requires l < |s.layers| && e < |s.layers[l].ent|
    ensures var t, en := Release(s, l, e), s.layers[l].ent[e];
      && |t.layers| == |s.layers| && |t.layers[l].ent| == |s.layers[l].ent|
      && t == s.(layers := s.layers[l := s.layers[l].(ent := s.layers[l].ent[e := t.layers[l].ent[e]])])
      && t.layers[l].ent[e] == en.(rc := if en.rc >= 1 then en.rc - 1 else 0)
  {
    assert s.layers[l].ent[e := s.layers[l].ent[e]] == s.layers[l].ent;
    assert s.layers[l := s.layers[l]] == s.layers;
  }
}
