/** What every operation of the cache keeps, in every reachable state: the redundant
    views of one fact (entries, slot table, queues, counters, free stack) agree, and
    slots are neither lost nor handed out twice. */
module CacheInvariants {
  import opened Seqs
  import opened CacheModel

  // ---------------------------------------------------------------------------
  // One layer
  // ---------------------------------------------------------------------------

  /** What the entry of expert e says about itself. */
  predicate EntryOk(en: Entry, nSlot: nat) {
    && en.rc < RC_MOD
    && en.freq <= FREQ_MAX
    && (en.seg == NotCached ==> en.slot == NO_SLOT && en.rc == 0 && !en.resident)
    && (en.seg != NotCached ==> en.slot < nSlot)
    && (en.seg == Small ==> en.freq == 1)
    && (en.seg == Main ==> en.freq >= 1)
  }

  /** Each expert is in exactly the queue its segment names. */
  ghost predicate Placed(ly: Layer, e: nat)
    requires e < |ly.ent| && e < |ly.slot|
  {
    && (e in ly.small <==> ly.ent[e].seg == Small)
    && (e in ly.main <==> ly.ent[e].seg == Main)
    && (e in ly.ghosts ==> ly.ent[e].seg == NotCached)
    && ly.slot[e] == ly.ent[e].slot
  }

  ghost predicate Queues(ly: Layer) {
    NoDup(ly.small) && NoDup(ly.main) && NoDup(ly.ghosts)
  }

  ghost predicate Injective(ent: seq<Entry>) {
    forall d, e :: 0 <= d < e < |ent| && ent[d].seg != NotCached && ent[e].seg != NotCached ==> ent[d].slot != ent[e].slot
  }

  ghost function PinnedSet(ent: seq<Entry>): set<nat> {
    set e: nat | e < |ent| && ent[e].seg == Pinned
  }

  ghost predicate Counts(ly: Layer) {
    ly.pinned == |PinnedSet(ly.ent)| && ly.resident == |ly.small| + |ly.main| + ly.pinned
  }

  ghost predicate LayerInv(ly: Layer, n: nat, nSlot: nat) {
    && LayerShape(ly, n)
    && Queues(ly)
    && (forall e :: 0 <= e < n ==> EntryOk(ly.ent[e], nSlot))
    && (forall e :: 0 <= e < n ==> Placed(ly, e))
    && Injective(ly.ent)
    && Counts(ly)
  }

  /** The slots the cached experts of a layer occupy. */
  ghost function Occ(ly: Layer): set<nat> {
    set e | 0 <= e < |ly.ent| && ly.ent[e].seg != NotCached :: ly.ent[e].slot
  }

  // -- hit ---------------------------------------------------------------------

  lemma HitKeepsLayer(ly: Layer, e: nat, step: nat, n: nat, nSlot: nat)
    requires LayerInv(ly, n, nSlot) && e < n && ly.ent[e].seg != NotCached
    ensures LayerInv(HitLayer(ly, e, step), n, nSlot)
    ensures Occ(HitLayer(ly, e, step)) == Occ(ly)
    ensures HitLayer(ly, e, step).resident == ly.resident && HitLayer(ly, e, step).pinned == ly.pinned
    ensures Promotes(ly, e) <==> ly.ent[e].seg == Small
  {
    var h := HitLayer(ly, e, step);
    assert Placed(ly, e) && EntryOk(ly.ent[e], nSlot);
    EraseNoDup(ly.small, e);
    forall d | 0 <= d < n ensures EntryOk(h.ent[d], nSlot) && Placed(h, d) {
      assert Placed(ly, d) && EntryOk(ly.ent[d], nSlot);
    }
    assert PinnedSet(h.ent) == PinnedSet(ly.ent);
    SameSlotsSameOcc(ly, h);
  }

  lemma SameSlotsSameOcc(a: Layer, b: Layer)
    requires |a.ent| == |b.ent|
    requires forall e :: 0 <= e < |a.ent| ==>
      a.ent[e].slot == b.ent[e].slot && (a.ent[e].seg == NotCached <==> b.ent[e].seg == NotCached)
    ensures Occ(a) == Occ(b)
  {
    forall x | x in Occ(a) ensures x in Occ(b) {
      var e :| 0 <= e < |a.ent| && a.ent[e].seg != NotCached && a.ent[e].slot == x;
      assert b.ent[e].slot == x;
    }
    forall x | x in Occ(b) ensures x in Occ(a) {
      var e :| 0 <= e < |b.ent| && b.ent[e].seg != NotCached && b.ent[e].slot == x;
      assert a.ent[e].slot == x;
    }
  }

  // -- miss --------------------------------------------------------------------

  lemma MissKeepsLayer(ly: Layer, e: nat, step: nat, n: nat, nSlot: nat)
    requires LayerInv(ly, n, nSlot) && e < n && ly.ent[e].seg == NotCached
    ensures LayerInv(MissLayer(ly, e, step), n, nSlot)
    ensures Occ(MissLayer(ly, e, step)) == Occ(ly)
    ensures e !in MissLayer(ly, e, step).ghosts
  {
    var m := MissLayer(ly, e, step);
    EraseNoDup(ly.ghosts, e);
    forall d | 0 <= d < n ensures EntryOk(m.ent[d], nSlot) && Placed(m, d) {
      assert Placed(ly, d) && EntryOk(ly.ent[d], nSlot);
    }
    assert PinnedSet(m.ent) == PinnedSet(ly.ent);
    SameSlotsSameOcc(ly, m);
  }

  // -- admission ---------------------------------------------------------------

  lemma AdmitKeepsLayer(ly: Layer, e: nat, x: nat, o: Origin, wasGhost: bool, n: nat, nSlot: nat)
    requires LayerInv(ly, n, nSlot) && e < n && ly.ent[e].seg == NotCached
    requires e !in ly.ghosts && ly.ent[e].freq == 1
    requires x < nSlot && x !in Occ(ly)
    ensures LayerInv(AdmitLayer(ly, e, x, o, wasGhost), n, nSlot)
    ensures Occ(AdmitLayer(ly, e, x, o, wasGhost)) == Occ(ly) + {x}
  {
    var a := AdmitLayer(ly, e, x, o, wasGhost);
    assert Placed(ly, e);
    AppendNoDup(ly.small, e);
    AppendNoDup(ly.main, e);
    forall d | 0 <= d < n ensures EntryOk(a.ent[d], nSlot) && Placed(a, d) {
      assert Placed(ly, d) && EntryOk(ly.ent[d], nSlot);
    }
    assert PinnedSet(a.ent) == PinnedSet(ly.ent);
    AdmitOcc(ly, e, x, o, wasGhost);
  }

  lemma AdmitOcc(ly: Layer, e: nat, x: nat, o: Origin, wasGhost: bool)
    requires e < |ly.ent| && e < |ly.slot| && ly.ent[e].seg == NotCached && x !in Occ(ly)
    requires Injective(ly.ent)
    ensures Occ(AdmitLayer(ly, e, x, o, wasGhost)) == Occ(ly) + {x}
    ensures Injective(AdmitLayer(ly, e, x, o, wasGhost).ent)
  {
    var a := AdmitLayer(ly, e, x, o, wasGhost);
    forall d | 0 <= d < |ly.ent| && ly.ent[d].seg != NotCached ensures ly.ent[d].slot in Occ(a) && ly.ent[d].slot != x {
      assert a.ent[d] == ly.ent[d];
      assert ly.ent[d].slot in Occ(ly);
    }
    assert a.ent[e].slot == x && a.ent[e].seg != NotCached;
    forall y | y in Occ(a) ensures y in Occ(ly) + {x} {
      var d :| 0 <= d < |a.ent| && a.ent[d].seg != NotCached && a.ent[d].slot == y;
      if d != e { assert ly.ent[d] == a.ent[d]; }
    }
  }

  // -- eviction ----------------------------------------------------------------

  lemma AgeKeepsLayer(ly: Layer, q: seq<nat>, n: nat, nSlot: nat)
    requires LayerInv(ly, n, nSlot)
    requires forall x :: x in q ==> x in ly.main
    ensures LayerInv(ly.(ent := Age(ly.ent, q)), n, nSlot)
    ensures Occ(ly.(ent := Age(ly.ent, q))) == Occ(ly)
  {
    var a := ly.(ent := Age(ly.ent, q));
    forall d | 0 <= d < n ensures EntryOk(a.ent[d], nSlot) && Placed(a, d) {
      assert Placed(ly, d) && EntryOk(ly.ent[d], nSlot);
    }
    assert PinnedSet(a.ent) == PinnedSet(ly.ent);
    SameSlotsSameOcc(ly, a);
  }

  /** Dropping an idle expert from the queue it is in. */
  ghost predicate DropsFrom(ly: Layer, cut: Layer, e: nat) {
    && cut == ly.(small := cut.small, main := cut.main)
    && NoDup(cut.small) && NoDup(cut.main)
    && (forall y :: y in cut.small <==> y in ly.small && y != e)
    && (forall y :: y in cut.main <==> y in ly.main && y != e)
    && |cut.small| + |cut.main| == |ly.small| + |ly.main| - 1
  }

  lemma DropKeepsLayer(ly: Layer, cut: Layer, e: nat, gmax: nat, n: nat, nSlot: nat)
    requires LayerInv(ly, n, nSlot) && e < n && (e in ly.small || e in ly.main) && Idle(ly.ent[e])
    requires DropsFrom(ly, cut, e)
    ensures LayerInv(Drop(cut, e, gmax), n, nSlot)
    ensures Occ(Drop(cut, e, gmax)) == Occ(ly) - {ly.ent[e].slot}
    ensures ly.ent[e].slot in Occ(ly)
    ensures Drop(cut, e, gmax).resident == ly.resident - 1 && Drop(cut, e, gmax).pinned == ly.pinned
  {
    var r := Drop(cut, e, gmax);
    assert Placed(ly, e);
    AppendNoDup(ly.ghosts, e);
    TrimNoDup(ly.ghosts + [e], gmax);
    forall d | 0 <= d < n ensures EntryOk(r.ent[d], nSlot) && Placed(r, d) {
      assert Placed(ly, d) && EntryOk(ly.ent[d], nSlot);
    }
    assert PinnedSet(r.ent) == PinnedSet(ly.ent);
    DropShape(ly, cut, e, gmax, n);
    DropOcc(ly, cut, e, gmax);
  }

  lemma DropShape(ly: Layer, cut: Layer, e: nat, gmax: nat, n: nat)
    requires LayerShape(ly, n) && e < n && DropsFrom(ly, cut, e)
    ensures LayerShape(Drop(cut, e, gmax), n)
  {
    assert forall k :: 0 <= k < |cut.small| ==> cut.small[k] in ly.small;
    assert forall k :: 0 <= k < |cut.main| ==> cut.main[k] in ly.main;
  }

  lemma DropOcc(ly: Layer, cut: Layer, e: nat, gmax: nat)
    requires Injective(ly.ent) && e < |ly.ent| == |ly.slot| && ly.ent[e].seg != NotCached
    requires cut.ent == ly.ent && cut.slot == ly.slot
    ensures Occ(Drop(cut, e, gmax)) == Occ(ly) - {ly.ent[e].slot}
    ensures ly.ent[e].slot in Occ(ly)
  {
    var r := Drop(cut, e, gmax);
    forall x | x in Occ(r) ensures x in Occ(ly) - {ly.ent[e].slot} {
      var d :| 0 <= d < |r.ent| && r.ent[d].seg != NotCached && r.ent[d].slot == x;
      assert d != e && r.ent[d] == ly.ent[d];
    }
    forall x | x in Occ(ly) - {ly.ent[e].slot} ensures x in Occ(r) {
      var d :| 0 <= d < |ly.ent| && ly.ent[d].seg != NotCached && ly.ent[d].slot == x;
      assert d != e && r.ent[d] == ly.ent[d];
    }
  }

  lemma EvictSmallKeeps(ly: Layer, i: nat, gmax: nat, n: nat, nSlot: nat)
    requires LayerInv(ly, n, nSlot) && i < |ly.small| && Idle(ly.ent[ly.small[i]])
    ensures Evicts(ly, EvictSmall(ly, i, gmax), ly.small[i], n, nSlot)
  {
    var e := ly.small[i];
    var cut := ly.(small := Rotate(ly.small, i));
    RotateNoDup(ly.small, i);
    assert Placed(ly, e);
    DropKeepsLayer(ly, cut, e, gmax, n, nSlot);
  }

  lemma EvictMainKeeps(ly: Layer, q: seq<nat>, k: nat, gmax: nat, n: nat, nSlot: nat)
    requires LayerInv(ly, n, nSlot) && k < |ly.main| && Idle(ly.ent[ly.main[k]])
    requires forall x :: x in q ==> x in ly.main
    ensures Evicts(ly, EvictMain(ly, q, k, gmax), ly.main[k], n, nSlot)
  {
    var e := ly.main[k];
    var aged := ly.(ent := Age(ly.ent, q));
    AgeKeepsLayer(ly, q, n, nSlot);
    var cut := aged.(main := Rotate(ly.main, k));
    RotateNoDup(ly.main, k);
    assert Placed(ly, e);
    DropKeepsLayer(aged, cut, e, gmax, n, nSlot);
  }

  /** Everything but the frequency and the clock of the last reference. */
  predicate SameButFreq(a: Entry, b: Entry) {
    a == b.(freq := a.freq)
  }

  /** ev evicts the idle queued expert v of ly and nothing else: every other entry keeps
      its slot, segment, refcount and readiness. */
  ghost predicate Evicts(ly: Layer, ev: Evicted, v: nat, n: nat, nSlot: nat) {
    && |ly.ent| == n && v < n
    && Idle(ly.ent[v]) && ly.ent[v].seg in {Small, Main}
    && ev.freed == Some(ly.ent[v].slot)
    && LayerInv(ev.ly, n, nSlot)
    && Occ(ev.ly) == Occ(ly) - {ly.ent[v].slot} && ly.ent[v].slot in Occ(ly)
    && ev.ly.resident == ly.resident - 1 && ev.ly.pinned == ly.pinned
    && ev.ly.ent[v].seg == NotCached
    && ev.ly.ghostHits == ly.ghostHits
    && (forall d :: 0 <= d < n && d != v ==> SameButFreq(ev.ly.ent[d], ly.ent[d]))
  }

  /** The victim EvictLayer chooses. */
  function Victim(ly: Layer): (v: Option<nat>)
    requires LayerShape(ly, |ly.ent|)
  {
    var i := FirstIdle(ly.small, ly.ent);
    var j := FirstCold(ly.main, ly.ent);
    var k := FirstIdle(ly.main, ly.ent);
    if i < |ly.small| then Some(ly.small[i])
    else if j < |ly.main| then Some(ly.main[j])
    else if k < |ly.main| then Some(ly.main[k])
    else None
  }

  /** Some unpinned resident of the layer is idle. */
  ghost predicate HasIdle(ly: Layer) {
    exists e :: 0 <= e < |ly.ent| && ly.ent[e].seg in {Small, Main} && Idle(ly.ent[e])
  }

  /** Eviction is complete and safe: it succeeds exactly when some SMALL or MAIN entry is
      idle, then removes exactly one idle unpinned expert, and on failure changes nothing
      (same queues in the same order, same frequencies). */
  lemma EvictKeepsLayer(ly: Layer, gmax: nat, n: nat, nSlot: nat)
    requires LayerInv(ly, n, nSlot)
    ensures Victim(ly).Some? <==> HasIdle(ly)
    ensures Victim(ly).Some? ==> Evicts(ly, EvictLayer(ly, gmax), Victim(ly).value, n, nSlot)
    ensures Victim(ly).None? ==> EvictLayer(ly, gmax) == Evicted(ly, None)
  {
    var i := FirstIdle(ly.small, ly.ent);
    var j := FirstCold(ly.main, ly.ent);
    var k := FirstIdle(ly.main, ly.ent);
    if i < |ly.small| {
      assert Placed(ly, ly.small[i]);
      EvictSmallKeeps(ly, i, gmax, n, nSlot);
    } else if j < |ly.main| {
      assert Placed(ly, ly.main[j]);
      EvictMainKeeps(ly, ly.main[..j], j, gmax, n, nSlot);
    } else if k < |ly.main| {
      assert Placed(ly, ly.main[k]);
      EvictMainKeeps(ly, ly.main, k, gmax, n, nSlot);
    } else {
      forall e | 0 <= e < n && ly.ent[e].seg in {Small, Main} ensures !Idle(ly.ent[e]) {
        assert Placed(ly, e);
      }
    }
  }

  // ---------------------------------------------------------------------------
  // Whom eviction chooses
  // ---------------------------------------------------------------------------

  /** One-shot experts first: MAIN loses an expert only when nobody in SMALL is idle, and an
      expert with second chances left only when every idle expert of MAIN has some. */
  lemma {:induction false} EvictionOrder(ly: Layer, n: nat, nSlot: nat)
    requires LayerInv(ly, n, nSlot) && Victim(ly).Some?
    ensures var v := Victim(ly).value;
      && v < n && (v in ly.small <==> exists e :: e in ly.small && Idle(ly.ent[e]))
      && (v in ly.main ==> forall e :: e in ly.small ==> !Idle(ly.ent[e]))
      && (v in ly.main && ly.ent[v].freq > 1 ==> forall e :: e in ly.main && Idle(ly.ent[e]) ==> ly.ent[e].freq > 1)
  {
    var v := Victim(ly).value;
    var i := FirstIdle(ly.small, ly.ent);
    assert Placed(ly, v);
    if i < |ly.small| {
      assert v in ly.small && Idle(ly.ent[v]);
    } else {
      assert forall e :: e in ly.small ==> !Idle(ly.ent[e]);
      assert v in ly.main;
    }
  }

  /** The victim gives up its slot and is the newest of at most gmax ghosts. */
  ghost predicate GivenUp(ly: Layer, r: Layer, v: nat, gmax: nat) {
    var g := ly.ghosts + [v];
    && v < |r.ent| == |ly.ent| && r.ghosts == g[if |g| <= gmax then 0 else |g| - gmax..]
    && r.ent[v] == ly.ent[v].(slot := NO_SLOT, seg := NotCached, resident := false, freq := 0)
  }

  /** The k-th of SMALL goes, the first idle one; the experts passed over follow the others. */
  ghost predicate LeavesSmall(ly: Layer, r: Layer, v: nat, k: nat)
    requires QueueIn(ly.small, |ly.ent|)
  {
    && |r.ent| == |ly.ent| && k < |ly.small| && ly.small[k] == v
    && (forall j :: 0 <= j < k ==> ly.ent[ly.small[j]].rc > 0)
    && r.small == ly.small[k + 1..] + ly.small[..k] && r.main == ly.main
    && (forall e :: 0 <= e < |ly.ent| && e != v ==> r.ent[e] == ly.ent[e])
  }

  /** The k-th of MAIN goes: the first idle one without a second chance, those before it having
      used one; or, when all idle ones have chances left, the first of these, all having used
      one. */
  ghost predicate LeavesMain(ly: Layer, r: Layer, v: nat, k: nat)
    requires QueueIn(ly.main, |ly.ent|) && v < |ly.ent|
  {
    && |r.ent| == |ly.ent| && k < |ly.main| && ly.main[k] == v
    && (forall j :: 0 <= j < k ==> ly.ent[ly.main[j]].rc > 0 || (ly.ent[v].freq <= 1 && ly.ent[ly.main[j]].freq > 1))
    && r.main == ly.main[k + 1..] + ly.main[..k] && r.small == ly.small
    && (forall e :: 0 <= e < |ly.ent| && e != v ==>
          r.ent[e] == SecondChance(ly.ent[e], e in (if ly.ent[v].freq <= 1 then ly.main[..k] else ly.main)))
  }

  /** An entry after a second-chance scan. */
  function SecondChance(en: Entry, scanned: bool): Entry {
    if scanned && en.rc == 0 && en.freq > 1 then en.(freq := en.freq - 1) else en
  }

  lemma {:induction false} TraceSmall(ly: Layer, i: nat, gmax: nat)
    requires LayerShape(ly, |ly.ent|) && i < |ly.small| && forall j :: 0 <= j < i ==> ly.ent[ly.small[j]].rc > 0
    ensures GivenUp(ly, EvictSmall(ly, i, gmax).ly, ly.small[i], gmax)
    ensures LeavesSmall(ly, EvictSmall(ly, i, gmax).ly, ly.small[i], i)
  {
  }

  lemma {:induction false} TraceMain(ly: Layer, q: seq<nat>, k: nat, gmax: nat)
    requires LayerShape(ly, |ly.ent|) && k < |ly.main| && ly.ent[ly.main[k]].rc == 0
    requires if ly.ent[ly.main[k]].freq <= 1 then q == ly.main[..k] && ly.main[k] !in q else q == ly.main
    requires forall j :: 0 <= j < k ==>
      ly.ent[ly.main[j]].rc > 0 || (ly.ent[ly.main[k]].freq <= 1 && ly.ent[ly.main[j]].freq > 1)
    ensures GivenUp(ly, EvictMain(ly, q, k, gmax).ly, ly.main[k], gmax)
    ensures LeavesMain(ly, EvictMain(ly, q, k, gmax).ly, ly.main[k], k)
  {
  }

  /** What eviction leaves, expert by expert and queue by queue. */
  lemma {:induction false} EvictionTrace(ly: Layer, gmax: nat, n: nat, nSlot: nat) returns (k: nat)
    requires LayerInv(ly, n, nSlot) && Victim(ly).Some?
    ensures Victim(ly).value < n && GivenUp(ly, EvictLayer(ly, gmax).ly, Victim(ly).value, gmax)
    ensures if Victim(ly).value in ly.small then LeavesSmall(ly, EvictLayer(ly, gmax).ly, Victim(ly).value, k)
            else LeavesMain(ly, EvictLayer(ly, gmax).ly, Victim(ly).value, k)
  {
    var i, j := FirstIdle(ly.small, ly.ent), FirstCold(ly.main, ly.ent);
    k := FirstIdle(ly.main, ly.ent);
    if i < |ly.small| {
      k := i;
      TraceSmall(ly, i, gmax);
    } else if j < |ly.main| {
      k := j;
      assert Placed(ly, ly.main[j]);
      TraceMain(ly, ly.main[..j], j, gmax);
    } else {
      assert Placed(ly, ly.main[k]) && ly.ent[ly.main[k]].freq > 1;
      TraceMain(ly, ly.main, k, gmax);
    }
  }
}
