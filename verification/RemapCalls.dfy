/** Remap calls and runs of them: the ids a call writes select, in the slab, exactly the
    bytes the original ids select in the file. */
module RemapCalls {
  import opened Seqs
  import opened Memory
  import opened CacheModel
  import opened CacheInvariants
  import opened SlotConservation
  import opened CacheReachability
  import opened LayerIsolation
  import opened Exhaustion
  import opened RemapModel
  import ExpertSweep

  /** The passes a held list is kept for (hkey = il * 8 + pass). */
  const PASSES: nat := 8

  /** What the runtime keeps for one layer: its cache, the experts each pass holds, and per
      role one slab whose last place is the null expert. */
  datatype LayerRt = LayerRt(c: State, held: seq<seq<nat>>, slab: seq<seq<Block>>)

  /** The layer in the file: role by role, the bytes of every expert; and per role the
      zero block of the null expert. */
  datatype LayerFile = LayerFile(bytes: seq<seq<Block>>, zeros: seq<Block>)

  datatype Call = Call(pass: nat, np: nat, ids: seq<int>)

  // ---------------------------------------------------------------------------
  // Releasing the references of the previous call
  // ---------------------------------------------------------------------------

  function Flat(held: seq<seq<nat>>): seq<nat> {
    if |held| == 0 then [] else Flat(held[..|held| - 1]) + held[|held| - 1]
  }

  ghost function ReleaseAll(c: State, l: seq<nat>): (r: State)
    requires Plain(c) && QueueIn(l, c.nExpert)
    ensures Plain(r) && r.nExpert == c.nExpert && r.nSlot == c.nSlot
  {
    if |l| == 0 then c else Release(ReleaseAll(c, l[..|l| - 1]), 0, l[|l| - 1])
  }

  lemma {:induction false} ReleaseAllSolo(c: State, l: seq<nat>)
    requires Solo(c) && QueueIn(l, c.nExpert)
    ensures Plain(c) && Solo(ReleaseAll(c, l))
  {
    SoloPlain(c);
    if |l| > 0 {
      var r := ReleaseAll(c, l[..|l| - 1]);
      ReleaseAllSolo(c, l[..|l| - 1]);
      EntrywiseFixed(r, 0, l[|l| - 1], Done(0, l[|l| - 1]));
      EntrywiseLocal(r, 0, l[|l| - 1], Done(0, l[|l| - 1]));
    }
  }

  function Minus(a: nat, b: nat): nat { if a >= b then a - b else 0 }

  /** r is c with each expert's multiplicity in l taken off its refcount, stopping at zero,
      and nothing else changed. */
  ghost predicate ReleasedBy(c: State, r: State, l: seq<nat>, n: nat) {
    && OneLayerShape(c, n) && OneLayerShape(r, n)
    && forall e :: 0 <= e < n ==> Ent(r, e) == Ent(c, e).(rc := Minus(Ent(c, e).rc, multiset(l)[e]))
  }

  lemma ReleaseStep(c: State, r: State, l: seq<nat>, e: nat, n: nat)
    requires ReleasedBy(c, r, l, n) && e < n
    ensures ReleasedBy(c, Release(r, 0, e), l + [e], n)
  {
    var t := Release(r, 0, e);
    forall d | 0 <= d < n ensures Ent(t, d) == Ent(c, d).(rc := Minus(Ent(c, d).rc, multiset(l + [e])[d])) {
      assert multiset(l + [e])[d] == multiset(l)[d] + (if d == e then 1 else 0);
      assert Ent(r, d) == Ent(c, d).(rc := Minus(Ent(c, d).rc, multiset(l)[d]));
    }
  }

  lemma {:induction false} ReleaseAllEffect(c: State, l: seq<nat>)
    requires Plain(c) && QueueIn(l, c.nExpert)
    ensures ReleasedBy(c, ReleaseAll(c, l), l, c.nExpert)
  {
    if |l| > 0 {
      var k := |l| - 1;
      ReleaseAllEffect(c, l[..k]);
      assert l == l[..k] + [l[k]];
      ReleaseStep(c, ReleaseAll(c, l[..k]), l[..k], l[k], c.nExpert);
    }
  }

  /** Releasing touches no queue, slot or counter. */
  lemma {:induction false} ReleaseAllQueues(c: State, l: seq<nat>)
    requires Plain(c) && QueueIn(l, c.nExpert)
    ensures ReleaseAll(c, l).layers[0] == c.layers[0].(ent := ReleaseAll(c, l).layers[0].ent)
  {
    if |l| > 0 { ReleaseAllQueues(c, l[..|l| - 1]); }
  }

  // ---------------------------------------------------------------------------
  // Reading the misses
  // ---------------------------------------------------------------------------

  predicate SlabShape(slab: seq<seq<Block>>, nSlot: nat) {
    |slab| == ROLES && forall r :: 0 <= r < ROLES ==> |slab[r]| == nSlot + 1
  }

  predicate FileShape(f: LayerFile, n: nat) {
    |f.bytes| == ROLES && |f.zeros| == ROLES && forall r :: 0 <= r < ROLES ==> |f.bytes[r]| == n
  }

  /** The slab after the three reads of every pending miss. */
  function Loaded(slab: seq<seq<Block>>, pend: seq<Pend>, f: LayerFile, n: nat, nSlot: nat): (s: seq<seq<Block>>)
    requires SlabShape(slab, nSlot) && FileShape(f, n) && PendIn(pend, n, nSlot)
    ensures SlabShape(s, nSlot)
  {
    if |pend| == 0 then slab
    else
      var s := Loaded(slab, pend[..|pend| - 1], f, n, nSlot);
      var p := pend[|pend| - 1];
      seq(ROLES, r requires 0 <= r < ROLES => s[r][p.slot := f.bytes[r][p.e]])
  }

  predicate DistinctSlots(pend: seq<Pend>) {
    forall j, k :: 0 <= j < k < |pend| ==> pend[j].slot != pend[k].slot
  }

  lemma {:induction false} LoadedAt(slab: seq<seq<Block>>, pend: seq<Pend>, f: LayerFile, n: nat, nSlot: nat)
    requires SlabShape(slab, nSlot) && FileShape(f, n) && PendIn(pend, n, nSlot) && DistinctSlots(pend)
    ensures forall k, r :: 0 <= k < |pend| && 0 <= r < ROLES ==>
      Loaded(slab, pend, f, n, nSlot)[r][pend[k].slot] == f.bytes[r][pend[k].e]
    ensures forall x, r :: 0 <= x <= nSlot && 0 <= r < ROLES && (forall k :: 0 <= k < |pend| ==> pend[k].slot != x) ==>
      Loaded(slab, pend, f, n, nSlot)[r][x] == slab[r][x]
  {
    if |pend| > 0 {
      LoadedAt(slab, pend[..|pend| - 1], f, n, nSlot);
    }
  }

  // ---------------------------------------------------------------------------
  // One call
  // ---------------------------------------------------------------------------

  ghost predicate RtShape(rt: LayerRt, f: LayerFile) {
    && Solo(rt.c) && Plain(rt.c) && |rt.held| == PASSES
    && QueueIn(Flat(rt.held), rt.c.nExpert)
    && SlabShape(rt.slab, rt.c.nSlot) && FileShape(f, rt.c.nExpert)
  }

  const NO_REFS: seq<seq<nat>> := [[], [], [], [], [], [], [], []]

  /** The experts a call may ask the cache for. */
  function OwnOf(call: Call, nExpert: nat): (own: seq<bool>)
    ensures |own| == nExpert
  {
    ExpertSweep.Own(call.ids, nExpert, call.np, call.pass)
  }

  /** No slot changes hands within the call. */
  ghost predicate CallSafe(call: Call, nExpert: nat, nSlot: nat) {
    Safe(call.ids, OwnOf(call, nExpert), nSlot)
  }

  ghost function Begin(rt: LayerRt, f: LayerFile): (c: State)
    requires RtShape(rt, f)
    ensures Solo(c) && Plain(c) && c.nExpert == rt.c.nExpert && c.nSlot == rt.c.nSlot
  {
    ReleaseAllSolo(rt.c, Flat(rt.held));
    ReleaseAll(rt.c, Flat(rt.held))
  }

  ghost function Serve(rt: LayerRt, f: LayerFile, call: Call, nbytes: nat): (b: Batch)
    requires RtShape(rt, f)
    ensures Solo(b.c) && Plain(b.c) && b.c.nExpert == rt.c.nExpert && b.c.nSlot == rt.c.nSlot
  {
    ServeAllSolo(Begin(rt, f), call.ids, OwnOf(call, rt.c.nExpert), nbytes);
    ServeAll(Begin(rt, f), call.ids, OwnOf(call, rt.c.nExpert), nbytes)
  }

  /** Between calls: refcounts count the references held, every cached expert's bytes are in
      its slot in every role, and the last place of each slab is the null expert. */
  ghost predicate RtInv(rt: LayerRt, f: LayerFile) {
    && RtShape(rt, f)
    && CountsRefs(rt.c, Flat(rt.held))
    && HasBytes(rt, f)
    && forall r :: 0 <= r < ROLES ==> rt.slab[r][rt.c.nSlot] == f.zeros[r]
  }

  ghost predicate HasBytes(rt: LayerRt, f: LayerFile) {
    && OneLayerShape(rt.c, rt.c.nExpert) && SlabShape(rt.slab, rt.c.nSlot) && FileShape(f, rt.c.nExpert)
    && forall e :: 0 <= e < rt.c.nExpert && Cached(rt.c, e) ==>
         Ent(rt.c, e).resident && Ent(rt.c, e).slot < rt.c.nSlot
         && forall r :: 0 <= r < ROLES ==> rt.slab[r][Ent(rt.c, e).slot] == f.bytes[r][e]
  }

  /** No reference leaks: once the release loop has run, every refcount is zero. */
  lemma BeginNoRefs(rt: LayerRt, f: LayerFile)
    requires RtShape(rt, f) && CountsRefs(rt.c, Flat(rt.held))
    ensures NoRefs(Begin(rt, f), rt.c.nExpert)
    ensures OneLayerShape(rt.c, rt.c.nExpert)
    ensures forall e :: 0 <= e < rt.c.nExpert ==> SameButRc(Ent(Begin(rt, f), e), Ent(rt.c, e))
  {
    ReleaseAllEffect(rt.c, Flat(rt.held));
    ReleasedNoRefs(rt.c, Begin(rt, f), Flat(rt.held), rt.c.nExpert);
  }

  lemma ReleasedNoRefs(c: State, r: State, l: seq<nat>, n: nat)
    requires ReleasedBy(c, r, l, n) && CountsRefs(c, l)
    ensures NoRefs(r, n)
    ensures forall e :: 0 <= e < n ==> SameButRc(Ent(r, e), Ent(c, e))
  {
    forall e | 0 <= e < n ensures Ent(r, e).rc == 0 {
      assert Ent(c, e).rc == multiset(l)[e] % RC_MOD;
    }
  }

  lemma BeginQuiet(rt: LayerRt, f: LayerFile)
    requires RtInv(rt, f)
    ensures Solo(Begin(rt, f)) && Quiet(Begin(rt, f), rt.c.nExpert)
    ensures Begin(rt, f).nSlot == rt.c.nSlot && Begin(rt, f).nExpert == rt.c.nExpert
    ensures forall e :: 0 <= e < rt.c.nExpert ==> SameButRc(Ent(Begin(rt, f), e), Ent(rt.c, e))
  {
    BeginNoRefs(rt, f);
    forall e | 0 <= e < rt.c.nExpert && Cached(Begin(rt, f), e) ensures Ent(Begin(rt, f), e).resident {
      assert SameButRc(Ent(Begin(rt, f), e), Ent(rt.c, e));
    }
  }

  predicate SameButRc(a: Entry, b: Entry) { a == b.(rc := a.rc) }

  // ---------------------------------------------------------------------------
  // The effect of a call
  // ---------------------------------------------------------------------------

  lemma SoundPendIn(b: Batch, n: nat)
    requires Solo(b.c) && b.c.nExpert == n && PendOk(b, n) && forall e :: e in b.held ==> e < n && Cached(b.c, e)
    ensures PendIn(b.pend, n, b.c.nSlot) && DistinctSlots(b.pend)
  {
    SoloFacts(b.c);
    forall k | 0 <= k < |b.pend| ensures b.pend[k].e < n && b.pend[k].slot < b.c.nSlot && Cached(b.c, b.pend[k].e) {
      assert b.pend[k].e in b.held;
      assert EntryOk(Ent(b.c, b.pend[k].e), b.c.nSlot);
    }
  }

  /** Pending reads go to real slots, all different, whatever the ids were. */
  lemma ServePending(rt: LayerRt, f: LayerFile, call: Call, nbytes: nat)
    requires RtInv(rt, f) && CallSafe(call, rt.c.nExpert, rt.c.nSlot)
    ensures var b := Serve(rt, f, call, nbytes);
      && b.c.nSlot == rt.c.nSlot && b.c.nExpert == rt.c.nExpert
      && Sound(b, call.ids, OwnOf(call, rt.c.nExpert), Begin(rt, f))
      && PendIn(b.pend, rt.c.nExpert, rt.c.nSlot) && DistinctSlots(b.pend)
  {
    BeginQuiet(rt, f);
    var own := OwnOf(call, rt.c.nExpert);
    ServeAllSound(Begin(rt, f), call.ids, own, nbytes);
    var b := Serve(rt, f, call, nbytes);
    SoundPendIn(b, rt.c.nExpert);
  }

  lemma ServeInRange(rt: LayerRt, f: LayerFile, call: Call, nbytes: nat)
    requires RtShape(rt, f)
    ensures var b := Serve(rt, f, call, nbytes);
      Solo(b.c) && b.c.nSlot == rt.c.nSlot && b.c.nExpert == rt.c.nExpert
      && InRange(b, rt.c.nExpert) && |b.out| == |call.ids|
  {
    ServeAllInRange(Begin(rt, f), call.ids, OwnOf(call, rt.c.nExpert), nbytes);
  }

  /** The state a call leaves: this pass holds what was served, every other pass nothing,
      and every pending read has been carried out. */
  ghost function After(rt: LayerRt, f: LayerFile, call: Call, nbytes: nat): LayerRt
    requires RtShape(rt, f) && call.pass < PASSES
  {
    ServeInRange(rt, f, call, nbytes);
    var b := Serve(rt, f, call, nbytes);
    LayerRt(b.c, NO_REFS[call.pass := b.held], Loaded(rt.slab, b.pend, f, rt.c.nExpert, rt.c.nSlot))
  }

  lemma FlatOne(held: seq<nat>, pass: nat)
    requires pass < PASSES
    ensures Flat(NO_REFS[pass := held]) == held
  {
    FlatEmpty(NO_REFS[..pass]);
    FlatTail(NO_REFS[pass := held], pass, held);
  }

  lemma {:induction false} FlatEmpty(h: seq<seq<nat>>)
    requires forall k :: 0 <= k < |h| ==> h[k] == []
    ensures Flat(h) == []
  {
    if |h| > 0 { FlatEmpty(h[..|h| - 1]); }
  }

  lemma {:induction false} FlatTail(h: seq<seq<nat>>, pass: nat, held: seq<nat>)
    requires pass < |h| && h[pass] == held
    requires forall k :: 0 <= k < |h| && k != pass ==> h[k] == []
    ensures Flat(h) == held
  {
    if pass == |h| - 1 {
      FlatEmpty(h[..pass]);
    } else {
      FlatTail(h[..|h| - 1], pass, held);
    }
  }

  /** After the reads, every cached expert's bytes are in its slot. */
  lemma AfterHasBytes(rt: LayerRt, f: LayerFile, call: Call, nbytes: nat)
    requires RtInv(rt, f) && CallSafe(call, rt.c.nExpert, rt.c.nSlot) && call.pass < PASSES
    ensures HasBytes(After(rt, f, call, nbytes), f)
  {
    ServePending(rt, f, call, nbytes);
    BeginQuiet(rt, f);
    var b := Serve(rt, f, call, nbytes);
    SoloFacts(b.c);
    LoadedAt(rt.slab, b.pend, f, rt.c.nExpert, rt.c.nSlot);
    forall e | 0 <= e < b.c.nExpert && Cached(b.c, e) ensures EntryOk(Ent(b.c, e), b.c.nSlot) {
    }
    LoadedBytes(rt, f, b, Begin(rt, f));
  }

  lemma LoadedBytes(rt: LayerRt, f: LayerFile, b: Batch, c0: State)
    requires HasBytes(rt, f) && OneLayerShape(b.c, rt.c.nExpert) && b.c.nSlot == rt.c.nSlot
    requires EntriesFrom(b, c0, rt.c.nExpert)
    requires forall e :: 0 <= e < rt.c.nExpert ==> SameButRc(Ent(c0, e), Ent(rt.c, e))
    requires forall e :: 0 <= e < rt.c.nExpert && Cached(b.c, e) ==> Ent(b.c, e).slot < rt.c.nSlot
    requires InjectiveSlots(b.c) && forall k :: 0 <= k < |b.pend| ==> b.pend[k].e < rt.c.nExpert && Cached(b.c, b.pend[k].e) && Ent(b.c, b.pend[k].e).slot == b.pend[k].slot
    requires PendIn(b.pend, rt.c.nExpert, rt.c.nSlot) && DistinctSlots(b.pend)
    ensures HasBytes(LayerRt(b.c, rt.held, Loaded(rt.slab, b.pend, f, rt.c.nExpert, rt.c.nSlot)), f)
  {
    var s := Loaded(rt.slab, b.pend, f, rt.c.nExpert, rt.c.nSlot);
    LoadedAt(rt.slab, b.pend, f, rt.c.nExpert, rt.c.nSlot);
    forall e, r | 0 <= e < rt.c.nExpert && Cached(b.c, e) && 0 <= r < ROLES
      ensures s[r][Ent(b.c, e).slot] == f.bytes[r][e]
    {
      var x := Ent(b.c, e).slot;
      if k :| 0 <= k < |b.pend| && b.pend[k] == Pend(e, x) {
        assert s[r][b.pend[k].slot] == f.bytes[r][b.pend[k].e];
      } else {
        assert Pend(e, x) !in b.pend;
        assert SameButRc(Ent(c0, e), Ent(rt.c, e));
        forall k | 0 <= k < |b.pend| ensures b.pend[k].slot != x {
          OtherSlot(b, e, k);
        }
        assert s[r][x] == rt.slab[r][x];
      }
    }
  }

  /** A pending read into expert e's slot is expert e's own. */
  lemma OtherSlot(b: Batch, e: nat, k: nat)
    requires |b.c.layers| == 1 && InjectiveSlots(b.c) && k < |b.pend|
    requires e < |b.c.layers[0].ent| && Cached(b.c, e)
    requires b.pend[k].e < |b.c.layers[0].ent| && Cached(b.c, b.pend[k].e) && Ent(b.c, b.pend[k].e).slot == b.pend[k].slot
    ensures b.pend[k].slot == Ent(b.c, e).slot ==> Pend(e, Ent(b.c, e).slot) in b.pend
  {
    assert b.pend[k] in b.pend;
  }

  ghost predicate InjectiveSlots(c: State)
    requires |c.layers| == 1
  {
    Injective(c.layers[0].ent)
  }

  /** A call keeps the invariant: no reference leaks, no expert is cached without its bytes. */
  lemma RemapKeeps(rt: LayerRt, f: LayerFile, call: Call, nbytes: nat)
    requires RtInv(rt, f) && CallSafe(call, rt.c.nExpert, rt.c.nSlot) && call.pass < PASSES
    ensures RtInv(After(rt, f, call, nbytes), f)
  {
    ServePending(rt, f, call, nbytes);
    var b := Serve(rt, f, call, nbytes);
    var t := After(rt, f, call, nbytes);
    AfterHasBytes(rt, f, call, nbytes);
    FlatOne(b.held, call.pass);
    LoadedLeavesNull(rt.slab, b.pend, f, rt.c.nExpert, rt.c.nSlot);
    AfterShape(rt, f, call, nbytes);
  }

  /** No read goes to the null expert's place. */
  lemma {:induction false} LoadedLeavesNull(slab: seq<seq<Block>>, pend: seq<Pend>, f: LayerFile, n: nat, nSlot: nat)
    requires SlabShape(slab, nSlot) && FileShape(f, n) && PendIn(pend, n, nSlot)
    ensures forall r :: 0 <= r < ROLES ==> Loaded(slab, pend, f, n, nSlot)[r][nSlot] == slab[r][nSlot]
  {
    if |pend| > 0 { LoadedLeavesNull(slab, pend[..|pend| - 1], f, n, nSlot); }
  }

  lemma AfterShape(rt: LayerRt, f: LayerFile, call: Call, nbytes: nat)
    requires RtShape(rt, f) && call.pass < PASSES
    ensures RtShape(After(rt, f, call, nbytes), f)
    ensures After(rt, f, call, nbytes).c.nSlot == rt.c.nSlot && After(rt, f, call, nbytes).c.nExpert == rt.c.nExpert
    ensures Flat(After(rt, f, call, nbytes).held) == Serve(rt, f, call, nbytes).held
  {
    ServeInRange(rt, f, call, nbytes);
    FlatOne(Serve(rt, f, call, nbytes).held, call.pass);
  }

  /** Whatever the batch, refcounts keep counting the references held across the eight
      passes (duplicate ids included), as 16-bit counters show them. */
  lemma RefsKeep(rt: LayerRt, f: LayerFile, call: Call, nbytes: nat)
    requires RtShape(rt, f) && CountsRefs(rt.c, Flat(rt.held)) && call.pass < PASSES
    ensures RtShape(After(rt, f, call, nbytes), f)
    ensures CountsRefs(After(rt, f, call, nbytes).c, Flat(After(rt, f, call, nbytes).held))
  {
    AfterShape(rt, f, call, nbytes);
    BeginNoRefs(rt, f);
    ServeAllRefs(Begin(rt, f), call.ids, OwnOf(call, rt.c.nExpert), nbytes);
  }

  /** Remapping preserves meaning: in every role, the slab read at the rewritten id gives the
      file's bytes of the original id when that id was served, and the null expert's zeros
      otherwise (id not owned by this pass, out of range, or no slot to be had). */
  lemma RemapGathers(rt: LayerRt, f: LayerFile, call: Call, nbytes: nat, i: nat, r: nat)
    requires RtInv(rt, f) && CallSafe(call, rt.c.nExpert, rt.c.nSlot) && call.pass < PASSES && i < |call.ids| && r < ROLES
    ensures var b := Serve(rt, f, call, nbytes);
      var own := OwnOf(call, rt.c.nExpert);
      var t := After(rt, f, call, nbytes);
      && |b.out| == |call.ids| && r < |t.slab| && b.out[i] < |t.slab[r]|
      && t.slab[r][b.out[i]] == (if Owned(call.ids[i], own) && b.out[i] != rt.c.nSlot then f.bytes[r][call.ids[i]] else f.zeros[r])
      && (b.out[i] != rt.c.nSlot ==> Owned(call.ids[i], own))
  {
    ServePending(rt, f, call, nbytes);
    RemapKeeps(rt, f, call, nbytes);
    AfterShape(rt, f, call, nbytes);
    var b := Serve(rt, f, call, nbytes);
    var own := OwnOf(call, rt.c.nExpert);
    assert OutOk(b, i, call.ids[i], own);
    if b.out[i] != rt.c.nSlot {
      assert call.ids[i] in b.held && Cached(b.c, call.ids[i]);
    }
  }

  // ---------------------------------------------------------------------------
  // When a batch runs out of slots
  // ---------------------------------------------------------------------------

  /** The distinct experts a batch asks the cache for. */
  ghost function Wanted(ids: seq<int>, own: seq<bool>): set<nat> {
    set e: nat | e < |own| && own[e] && e in ids
  }

  ghost function HeldSet(b: Batch): set<nat> {
    Elements(b.held)
  }

  ghost predicate Tally(b: Batch, ids: seq<int>, own: seq<bool>, nSlot: nat) {
    && HeldSet(b) <= Wanted(ids, own)
    && (b.exhausted == 0 ==> HeldSet(b) == Wanted(ids, own))
    && (b.exhausted > 0 ==> |Wanted(ids, own)| > nSlot)
  }

  lemma {:induction false} CachedFitSlots(c: State, s: set<nat>)
    requires Solo(c) && forall e :: e in s ==> e < c.nExpert && |c.layers[0].ent| == c.nExpert && Cached(c, e)
    ensures |s| <= c.nSlot
  {
    QueuesAreCached(c);
    SoloFacts(c);
    var q := c.layers[0].small + c.layers[0].main;
    NoDupCard(q);
    SubsetCard(s, Elements(q));
  }

  lemma {:induction false} InUseFillSlots(c: State)
    requires Solo(c) && AllInUse(c)
    ensures |Used(c)| >= c.nSlot
  {
    QueuesAreCached(c);
    SoloFacts(c);
    FullIff(c);
    var ly := c.layers[0];
    var q := ly.small + ly.main;
    NoDupCard(q);
    forall e | e in q ensures e in Used(c) {
      assert e < c.nExpert && Placed(ly, e);
      assert ly.ent[e].seg in {Small, Main};
    }
    SubsetCard(Elements(q), Used(c));
  }

  /** The experts with a reference, as the counters show it. */
  ghost function Used(c: State): set<nat>
    requires |c.layers| == 1
  {
    set e: nat | e < |c.layers[0].ent| && Ent(c, e).rc > 0
  }

  lemma {:induction false} UseIsHeld(b: Batch)
    requires |b.c.layers| == 1 && CountsRefs(b.c, b.held)
    ensures Used(b.c) <= HeldSet(b)
  {
    forall e | e in Used(b.c) ensures e in HeldSet(b) {
      assert Ent(b.c, e).rc == multiset(b.held)[e] % RC_MOD;
    }
  }

  lemma {:induction false} TallyRefused(b: Batch, ids: seq<int>, id: nat, own: seq<bool>)
    requires Solo(b.c) && b.c.nExpert == |own| == |b.c.layers[0].ent| && AllInUse(b.c) && CountsRefs(b.c, b.held)
    requires HeldSet(b) <= Wanted(ids, own) && Owned(id, own) && Ent(b.c, id).rc == 0
    ensures |Wanted(ids + [id], own)| > b.c.nSlot
  {
    UseIsHeld(b);
    InUseFillSlots(b.c);
    SubsetCard(Used(b.c) + {id}, Wanted(ids + [id], own));
  }

  lemma {:induction false} WantedNext(ids: seq<int>, id: int, own: seq<bool>)
    ensures Wanted(ids + [id], own) == Wanted(ids, own) + (if Owned(id, own) then {id} else {})
    ensures |Wanted(ids + [id], own)| >= |Wanted(ids, own)|
  {
    SubsetCard(Wanted(ids, own), Wanted(ids + [id], own));
  }

  lemma {:induction false} ServedTally(b: Batch, t: Batch, ids: seq<int>, id: int, own: seq<bool>)
    requires Served(b, t, id, own) && Tally(b, ids, own, b.c.nSlot)
    requires Owned(id, own) && !Cached(t.c, id) ==> |Wanted(ids + [id], own)| > b.c.nSlot
    ensures Tally(t, ids + [id], own, b.c.nSlot)
  {
    WantedNext(ids, id, own);
    HeldNext(b, t, id, own);
  }

  lemma {:induction false} HeldNext(b: Batch, t: Batch, id: int, own: seq<bool>)
    requires Served(b, t, id, own)
    ensures HeldSet(t) == if Owned(id, own) && Cached(t.c, id) then HeldSet(b) + {id} else HeldSet(b)
    ensures t.exhausted == if Owned(id, own) && !Cached(t.c, id) then b.exhausted + 1 else b.exhausted
  {
    if Owned(id, own) && Cached(t.c, id) {
      assert t.held == b.held + [id];
    }
  }

  lemma {:induction false} ServeAllTally(c: State, ids: seq<int>, own: seq<bool>, nbytes: nat)
    requires Solo(c) && c.nExpert == |own| && NoRefs(c, |own|)
    ensures Plain(c)
    ensures Tally(ServeAll(c, ids, own, nbytes), ids, own, c.nSlot)
  {
    SoloPlain(c);
    if |ids| > 0 {
      var k := |ids| - 1;
      assert ids == ids[..k] + [ids[k]];
      ServeAllSolo(c, ids[..k], own, nbytes);
      ServeAllTally(c, ids[..k], own, nbytes);
      ServeAllRefs(c, ids[..k], own, nbytes);
      TallyNext(ServeAll(c, ids[..k], own, nbytes), ids[..k], ids[k], own, nbytes);
    }
  }

  lemma {:induction false} TallyNext(b: Batch, ids: seq<int>, id: int, own: seq<bool>, nbytes: nat)
    requires Solo(b.c) && Plain(b.c) && b.c.nExpert == |own|
    requires CountsRefs(b.c, b.held) && Tally(b, ids, own, b.c.nSlot)
    ensures Tally(ServeOne(b, id, own, nbytes), ids + [id], own, b.c.nSlot)
  {
    var t := ServeOne(b, id, own, nbytes);
    ServeOneEffect(b, id, own, nbytes);
    if Owned(id, own) && !Cached(t.c, id) {
      ServeRefused(b, id, own, nbytes);
      TallyRefused(b, ids, id, own);
    }
    ServedTally(b, t, ids, id, own);
  }

  lemma {:induction false} ServeRefused(b: Batch, id: nat, own: seq<bool>, nbytes: nat)
    requires Solo(b.c) && Plain(b.c) && b.c.nExpert == |own| && Owned(id, own)
    requires Served(b, ServeOne(b, id, own, nbytes), id, own) && !Cached(ServeOne(b, id, own, nbytes).c, id)
    ensures |b.c.layers[0].ent| == |own| && AllInUse(b.c)
  {
    SoloFacts(b.c);
    ExhaustsIff(b.c, id);
    DemandEffect(b.c, id);
  }

  /** Whatever the batch and whatever the calls before it left in the cache, it runs out of
      slots only if it asks for more distinct experts than there are slots. */
  lemma ExhaustsOnlyIfTooMany(rt: LayerRt, f: LayerFile, call: Call, nbytes: nat)
    requires RtShape(rt, f) && CountsRefs(rt.c, Flat(rt.held))
    ensures Tally(Serve(rt, f, call, nbytes), call.ids, OwnOf(call, rt.c.nExpert), rt.c.nSlot)
    ensures Serve(rt, f, call, nbytes).exhausted > 0 ==> |Wanted(call.ids, OwnOf(call, rt.c.nExpert))| > rt.c.nSlot
  {
    BeginNoRefs(rt, f);
    ServeAllTally(Begin(rt, f), call.ids, OwnOf(call, rt.c.nExpert), nbytes);
  }

  /** And if no refcount wraps, or every expert has its slot, it always does then. */
  lemma ExhaustsIffTooMany(rt: LayerRt, f: LayerFile, call: Call, nbytes: nat)
    requires RtInv(rt, f) && CallSafe(call, rt.c.nExpert, rt.c.nSlot)
    ensures Serve(rt, f, call, nbytes).exhausted > 0 <==> |Wanted(call.ids, OwnOf(call, rt.c.nExpert))| > rt.c.nSlot
  {
    ExhaustsOnlyIfTooMany(rt, f, call, nbytes);
    ServePending(rt, f, call, nbytes);
    var b := Serve(rt, f, call, nbytes);
    if b.exhausted == 0 {
      SoloFacts(b.c);
      CachedFitSlots(b.c, HeldSet(b));
    }
  }

  /** What the slab must give at position i of a call that serves every owned id. */
  ghost predicate GathersFile(rt: LayerRt, f: LayerFile, call: Call, out: seq<nat>, slab: seq<seq<Block>>, i: nat, r: nat)
    requires FileShape(f, rt.c.nExpert) && i < |call.ids| && r < ROLES
  {
    && |out| == |call.ids| && r < |slab| && out[i] < |slab[r]|
    && slab[r][out[i]] == (if 0 <= call.ids[i] < rt.c.nExpert && OwnOf(call, rt.c.nExpert)[call.ids[i]]
                           then f.bytes[r][call.ids[i]] else f.zeros[r])
  }

  lemma ServedGathers(rt: LayerRt, f: LayerFile, call: Call, nbytes: nat, i: nat, r: nat)
    requires RtInv(rt, f) && CallSafe(call, rt.c.nExpert, rt.c.nSlot) && call.pass < PASSES && i < |call.ids| && r < ROLES
    requires Serve(rt, f, call, nbytes).exhausted == 0
    ensures GathersFile(rt, f, call, Serve(rt, f, call, nbytes).out, After(rt, f, call, nbytes).slab, i, r)
  {
    if Owned(call.ids[i], OwnOf(call, rt.c.nExpert)) {
      ServedAll(rt, f, call, nbytes, i);
    }
    RemapGathers(rt, f, call, nbytes, i, r);
  }

  /** When the distinct experts asked for fit the slots, every owned id is served: the
      gathered slab is the gathered file. */
  lemma {:induction false} RemapExact(rt: LayerRt, f: LayerFile, call: Call, nbytes: nat, i: nat, r: nat)
    requires RtInv(rt, f) && CallSafe(call, rt.c.nExpert, rt.c.nSlot) && call.pass < PASSES && i < |call.ids| && r < ROLES
    requires |Wanted(call.ids, OwnOf(call, rt.c.nExpert))| <= rt.c.nSlot
    ensures GathersFile(rt, f, call, Serve(rt, f, call, nbytes).out, After(rt, f, call, nbytes).slab, i, r)
  {
    ExhaustsIffTooMany(rt, f, call, nbytes);
    ServedGathers(rt, f, call, nbytes, i, r);
  }

  lemma ServedAll(rt: LayerRt, f: LayerFile, call: Call, nbytes: nat, i: nat)
    requires RtShape(rt, f) && i < |call.ids|
    requires Serve(rt, f, call, nbytes).exhausted == 0 && Owned(call.ids[i], OwnOf(call, rt.c.nExpert))
    ensures |Serve(rt, f, call, nbytes).out| == |call.ids| && Serve(rt, f, call, nbytes).out[i] != rt.c.nSlot
  {
    var own := OwnOf(call, rt.c.nExpert);
    ServeAllServed(Begin(rt, f), call.ids, own, nbytes);
    NoRefusals(call.ids, Serve(rt, f, call, nbytes).out, own, rt.c.nSlot, i);
  }

  // ---------------------------------------------------------------------------
  // Runs
  // ---------------------------------------------------------------------------

  predicate CallOk(call: Call) { call.pass < PASSES }

  predicate CallsOk(calls: seq<Call>) {
    forall i :: 0 <= i < |calls| ==> CallOk(calls[i])
  }

  ghost predicate CallsSafe(calls: seq<Call>, nExpert: nat, nSlot: nat) {
    forall i :: 0 <= i < |calls| ==> CallSafe(calls[i], nExpert, nSlot)
  }

  /** The state a run of calls leads to. */
  ghost function Run(rt: LayerRt, f: LayerFile, calls: seq<Call>, nbytes: nat): (t: LayerRt)
    requires RtShape(rt, f) && CallsOk(calls)
    ensures RtShape(t, f) && t.c.nSlot == rt.c.nSlot && t.c.nExpert == rt.c.nExpert
  {
    if |calls| == 0 then rt
    else
      var t := Run(rt, f, calls[..|calls| - 1], nbytes);
      AfterShape(t, f, calls[|calls| - 1], nbytes);
      After(t, f, calls[|calls| - 1], nbytes)
  }

  /** A layer before its first call: a fresh cache, nothing held, any slab whose last places
      are zeroed. */
  ghost predicate FreshRt(rt: LayerRt, f: LayerFile) {
    && rt.c.nSlot >= 1 && rt.c.nSlot <= NO_SLOT
    && rt.c == Init(1, rt.c.nExpert, rt.c.nSlot, rt.c.ghostMult)
    && rt.held == NO_REFS
    && SlabShape(rt.slab, rt.c.nSlot) && FileShape(f, rt.c.nExpert)
    && forall r :: 0 <= r < ROLES ==> rt.slab[r][rt.c.nSlot] == f.zeros[r]
  }

  lemma FreshInv(rt: LayerRt, f: LayerFile)
    requires FreshRt(rt, f)
    ensures RtInv(rt, f)
  {
    InitFixed(1, rt.c.nExpert, rt.c.nSlot, rt.c.ghostMult);
    FlatEmpty(NO_REFS);
  }

  /** Every state of every run satisfies the invariant. */
  lemma {:induction false} RunKeeps(rt: LayerRt, f: LayerFile, calls: seq<Call>, nbytes: nat)
    requires RtInv(rt, f) && CallsOk(calls) && CallsSafe(calls, rt.c.nExpert, rt.c.nSlot)
    ensures RtInv(Run(rt, f, calls, nbytes), f)
  {
    if |calls| > 0 {
      var k := |calls| - 1;
      RunKeeps(rt, f, calls[..k], nbytes);
      RemapKeeps(Run(rt, f, calls[..k], nbytes), f, calls[k], nbytes);
    }
  }

  lemma {:induction false} RunNext(rt: LayerRt, f: LayerFile, calls: seq<Call>, nbytes: nat)
    requires RtShape(rt, f) && CallsOk(calls) && |calls| > 0
    ensures var k := |calls| - 1;
      Run(rt, f, calls, nbytes) == After(Run(rt, f, calls[..k], nbytes), f, calls[k], nbytes)
  {
  }

  /** Refcounts count references in every state of every run, whatever the batches. */
  lemma {:induction false} RunRefs(rt: LayerRt, f: LayerFile, calls: seq<Call>, nbytes: nat)
    requires RtShape(rt, f) && CountsRefs(rt.c, Flat(rt.held)) && CallsOk(calls)
    ensures CountsRefs(Run(rt, f, calls, nbytes).c, Flat(Run(rt, f, calls, nbytes).held))
  {
    if |calls| > 0 {
      var k := |calls| - 1;
      RunRefs(rt, f, calls[..k], nbytes);
      RunNext(rt, f, calls, nbytes);
      RefsKeep(Run(rt, f, calls[..k], nbytes), f, calls[k], nbytes);
    }
  }

  /** Remapping preserves meaning over whole runs: after any run of calls, a further call
      whose distinct experts fit the slots gathers from the slab by slot id exactly what the
      file gives by expert id, in every role and at every position. */
  lemma {:induction false} RunExact(rt: LayerRt, f: LayerFile, calls: seq<Call>, call: Call, nbytes: nat, i: nat, r: nat)
    requires FreshRt(rt, f) && CallsOk(calls) && CallsSafe(calls, rt.c.nExpert, rt.c.nSlot) && CallOk(call) && CallSafe(call, rt.c.nExpert, rt.c.nSlot)
    requires i < |call.ids| && r < ROLES
    requires |Wanted(call.ids, OwnOf(call, rt.c.nExpert))| <= rt.c.nSlot
    ensures RtShape(rt, f)
    ensures var t := Run(rt, f, calls, nbytes);
      GathersFile(t, f, call, Serve(t, f, call, nbytes).out, After(t, f, call, nbytes).slab, i, r)
  {
    FreshInv(rt, f);
    RunKeeps(rt, f, calls, nbytes);
    RemapExact(Run(rt, f, calls, nbytes), f, call, nbytes, i, r);
  }

  /** In particular a call that is not split gathers every in-range id's own bytes, and zeros for
      every other id. */
  lemma {:induction false} RunExactUnsplit(rt: LayerRt, f: LayerFile, calls: seq<Call>, call: Call, nbytes: nat, i: nat, r: nat)
    requires FreshRt(rt, f) && CallsOk(calls) && CallsSafe(calls, rt.c.nExpert, rt.c.nSlot) && CallOk(call)
    requires CallSafe(call, rt.c.nExpert, rt.c.nSlot) && call.np <= 1 && i < |call.ids| && r < ROLES
    requires |(set e: nat | e < rt.c.nExpert && e in call.ids)| <= rt.c.nSlot
    ensures RtShape(rt, f)
    ensures var t := Run(rt, f, calls, nbytes);
      var out, slab, id := Serve(t, f, call, nbytes).out, After(t, f, call, nbytes).slab, call.ids[i];
      && |out| == |call.ids| && r < |slab| && out[i] < |slab[r]|
      && slab[r][out[i]] == if 0 <= id < rt.c.nExpert then f.bytes[r][id] else f.zeros[r]
  {
    FreshInv(rt, f);
    assert Wanted(call.ids, OwnOf(call, rt.c.nExpert)) == set e: nat | e < rt.c.nExpert && e in call.ids;
    RunExact(rt, f, calls, call, nbytes, i, r);
  }
}
