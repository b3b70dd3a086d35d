/** The expert cache as the program runs it: an object whose methods update its queues,
    entries, counters and free stack. Each method is proved to move the object's View()
    exactly as CacheModel says and to keep the invariant of SlotConservation. */
module ExpertCaches {
  import opened Arithmetic
  import opened Seqs
  import opened CacheModel
  import opened CacheInvariants
  import opened SlotConservation
  import opened CacheReachability
  import QuotaModel

  /** base plus one for each of the first l. */
  predicate Leading(q: seq<nat>, base: nat, l: nat) {
    forall i :: 0 <= i < |q| ==> q[i] == base + (if i < l then 1 else 0)
  }

  lemma {:induction false} EvenIsLeading(n: nat, nLayer: nat, q: seq<nat>)
    requires nLayer > 0 && |q| == nLayer && Leading(q, n / nLayer, n % nLayer)
    ensures q == EvenQuota(n, nLayer)
  {
  }

  /** n slots over nLayer layers, the remainder handed to the leading layers. */
  method EvenSplit(n: nat, nLayer: nat) returns (q: seq<nat>)
    requires nLayer > 0
    ensures q == EvenQuota(n, nLayer)
  {
    var base := n / nLayer;
    q := seq(nLayer, _ => base);
    var r: int := n - q[0] * nLayer;
    ghost var rest := n % nLayer;
    DivisionParts(n, nLayer);
    var l := 0;
    while r > 0
      invariant 0 <= r && l + r == rest < nLayer && |q| == nLayer && Leading(q, base, l)
    {
      SmallRemainder(l, nLayer);
      q := q[l % nLayer := q[l % nLayer] + 1];
      r, l := r - 1, l + 1;
    }
    EvenIsLeading(n, nLayer, q);
  }

  /** Aging one more expert of the queue. */
  lemma AgeNext(ent: seq<Entry>, q: seq<nat>, k: nat)
    requires k < |q| && QueueIn(q, |ent|) && q[k] !in q[..k]
    ensures Age(ent, q[..k + 1]) ==
            (if ent[q[k]].rc == 0 && ent[q[k]].freq > 1
             then Age(ent, q[..k])[q[k] := ent[q[k]].(freq := ent[q[k]].freq - 1)]
             else Age(ent, q[..k]))
    ensures Age(ent, q[..k])[q[k]] == ent[q[k]]
  {
    assert q[..k + 1] == q[..k] + [q[k]];
  }

  /** The first k of q0 were put back. */
  ghost predicate Passed(q0: seq<nat>, ent0: seq<Entry>, secondChance: bool, k: nat, q: seq<nat>, ent: seq<Entry>)
    requires QueueIn(q0, |ent0|)
  {
    && k <= |q0| && q == q0[k..] + q0[..k]
    && (forall j :: 0 <= j < k ==> !Stops(ent0[q0[j]], secondChance))
    && ent == (if secondChance then Age(ent0, q0[..k]) else ent0)
  }

  /** The scan ends at such an entry. */
  predicate Stops(en: Entry, secondChance: bool) {
    if secondChance then Cold(en) else Idle(en)
  }

  /** The front of the queue is the next of q0, with the entry it had. */
  lemma {:induction false} PassedFront(q0: seq<nat>, ent0: seq<Entry>, secondChance: bool, k: nat, q: seq<nat>,
                                       ent: seq<Entry>)
    requires QueueIn(q0, |ent0|) && NoDup(q0) && k < |q0| && Passed(q0, ent0, secondChance, k, q, ent)
    ensures |q| == |q0| && q[0] == q0[k] < |ent| == |ent0| && ent[q[0]] == ent0[q0[k]]
  {
    assert q0[k] !in q0[..k];
    AgeNext(ent0, q0, k);
  }

  /** Putting it back. */
  lemma {:induction false} PassedNext(q0: seq<nat>, ent0: seq<Entry>, secondChance: bool, k: nat, q: seq<nat>,
                                      ent: seq<Entry>)
    requires QueueIn(q0, |ent0|) && NoDup(q0) && k < |q0| && Passed(q0, ent0, secondChance, k, q, ent)
    requires !Stops(ent0[q0[k]], secondChance)
    ensures |q| == |q0| && |ent| == |ent0|
    ensures var e, en := q0[k], ent0[q0[k]];
      Passed(q0, ent0, secondChance, k + 1, q[1..] + [e],
             if en.rc == 0 then ent[e := en.(freq := en.freq - 1)] else ent)
  {
    assert q0[k] !in q0[..k];
    AgeNext(ent0, q0, k);
    assert q[1..] + [q0[k]] == q0[k + 1..] + q0[..k + 1];
  }

  /** What the scan leaves: it stopped at position k, or it went all the way round. */
  ghost predicate ScanResult(q0: seq<nat>, ent0: seq<Entry>, secondChance: bool, q: seq<nat>, ent: seq<Entry>,
                             victim: Option<nat>)
    requires QueueIn(q0, |ent0|)
  {
    var i := if secondChance then FirstCold(q0, ent0) else FirstIdle(q0, ent0);
    && ent == (if secondChance then Age(ent0, q0[..i]) else ent0)
    && (if i < |q0| then victim == Some(q0[i]) && q == Rotate(q0, i) else victim == None && q == q0)
  }

  lemma {:induction false} PassedStop(q0: seq<nat>, ent0: seq<Entry>, secondChance: bool, k: nat, q: seq<nat>,
                                      ent: seq<Entry>)
    requires QueueIn(q0, |ent0|) && Passed(q0, ent0, secondChance, k, q, ent)
    ensures k == |q0| ==> ScanResult(q0, ent0, secondChance, q, ent, None)
    ensures k < |q0| && Stops(ent0[q0[k]], secondChance) ==>
      ScanResult(q0, ent0, secondChance, q[1..], ent, Some(q0[k]))
  {
    var i := if secondChance then FirstCold(q0, ent0) else FirstIdle(q0, ent0);
    assert k < |q0| && Stops(ent0[q0[k]], secondChance) ==> i == k;
    assert k < |q0| ==> q[1..] == Rotate(q0, k);
    assert q0[..|q0|] == q0 && q0[|q0|..] == [];
  }

  /** Pop the front; it may go, or it is put back (and, in the second-chance pass, has one
      chance less if it was idle). */
  method ScanOne(ghost q0: seq<nat>, ghost ent0: seq<Entry>, secondChance: bool, ghost k: nat, q: seq<nat>, ent: seq<Entry>)
    returns (q': seq<nat>, ent': seq<Entry>, victim: Option<nat>)
    requires QueueIn(q0, |ent0|) && NoDup(q0) && k < |q0| && Passed(q0, ent0, secondChance, k, q, ent)
    ensures victim.None? ==> Passed(q0, ent0, secondChance, k + 1, q', ent')
    ensures victim.Some? ==> ScanResult(q0, ent0, secondChance, q', ent', victim)
  {
    PassedFront(q0, ent0, secondChance, k, q, ent);
    var e := q[0];
    q', ent', victim := q[1..], ent, None;
    if ent[e].rc > 0 {
      PassedNext(q0, ent0, secondChance, k, q, ent);
      q' := q' + [e];
    } else if secondChance && ent[e].freq > 1 {
      PassedNext(q0, ent0, secondChance, k, q, ent);
      ent' := ent[e := ent[e].(freq := ent[e].freq - 1)];
      q' := q' + [e];
    } else {
      PassedStop(q0, ent0, secondChance, k, q, ent);
      victim := Some(e);
    }
  }

  /** One scan of a queue: busy experts (and, in the second-chance pass, idle ones that still
      have a chance) go to the back; stop at the first that may go. */
  method Scan(q0: seq<nat>, ent0: seq<Entry>, secondChance: bool)
    returns (q: seq<nat>, ent: seq<Entry>, victim: Option<nat>)
    requires QueueIn(q0, |ent0|) && NoDup(q0)
    ensures ScanResult(q0, ent0, secondChance, q, ent, victim)
  {
    q, ent, victim := q0, ent0, None;
    var n := |q|;
    while n > 0 && victim.None?
      invariant 0 <= n <= |q0|
      invariant if victim.None? then Passed(q0, ent0, secondChance, |q0| - n, q, ent)
                else ScanResult(q0, ent0, secondChance, q, ent, victim)
    {
      q, ent, victim := ScanOne(q0, ent0, secondChance, |q0| - n, q, ent);
      n := n - 1;
    }
    if victim.None? { PassedStop(q0, ent0, secondChance, |q0|, q, ent); }
  }

  /** Aging does not change which experts are idle, nor any slot. */
  lemma AgedScan(ly: Layer)
    requires QueueIn(ly.main, |ly.ent|)
    ensures FirstIdle(ly.main, Age(ly.ent, ly.main)) == FirstIdle(ly.main, ly.ent)
    ensures ly.main[..|ly.main|] == ly.main
  {
    var aged := Age(ly.ent, ly.main);
    assert forall k :: 0 <= k < |ly.main| ==> (Idle(aged[ly.main[k]]) <==> Idle(ly.ent[ly.main[k]]));
  }

  /** With nobody idle, aging changes nothing. */
  lemma AgeNone(ent: seq<Entry>, q: seq<nat>)
    requires QueueIn(q, |ent|) && FirstIdle(q, ent) == |q|
    ensures Age(ent, q) == ent
  {
  }

  /** Before pass number `pass`: the passes before it found nobody. */
  ghost predicate Searched(ly0: Layer, pass: nat, ly: Layer)
    requires LayerShape(ly0, |ly0.ent|)
  {
    && ly == (if pass < 2 then ly0 else ly0.(ent := Age(ly0.ent, ly0.main)))
    && (pass >= 1 ==> FirstIdle(ly0.small, ly0.ent) == |ly0.small|)
    && (pass >= 2 ==> FirstCold(ly0.main, ly0.ent) == |ly0.main|)
    && (pass >= 3 ==> FirstIdle(ly0.main, ly0.ent) == |ly0.main|)
  }

  /** Pass 0 looks through SMALL, pass 1 through MAIN with second chances, pass 2 without. */
  method EvictPass(ly0: Layer, gmax: nat, pass: nat, ly1: Layer) returns (ly: Layer, freed: Option<nat>)
    requires LayerShape(ly0, |ly0.ent|) && NoDup(ly0.small) && NoDup(ly0.main) && pass < 3 && Searched(ly0, pass, ly1)
    ensures if freed.Some? then Evicted(ly, freed) == EvictLayer(ly0, gmax) else Searched(ly0, pass + 1, ly)
  {
    AgedScan(ly0);
    var q, ent, victim := Scan(if pass == 0 then ly1.small else ly1.main, ly1.ent, pass == 1);
    if victim.Some? {
      var e := victim.value;
      ly := if pass == 0 then ly1.(small := q) else ly1.(main := q, ent := ent);
      freed := Some(ly.ent[e].slot);
      ly := ForgetSlot(ly, e, gmax);
    } else {
      ly, freed := ly1.(ent := ent), None;
    }
  }

  /** The three passes over one layer's queues. */
  method EvictFrom(ly0: Layer, gmax: nat) returns (ly: Layer, freed: Option<nat>)
    requires LayerShape(ly0, |ly0.ent|) && NoDup(ly0.small) && NoDup(ly0.main)
    ensures Evicted(ly, freed) == EvictLayer(ly0, gmax)
  {
    ly, freed := ly0, None;
    var pass := 0;
    while pass < 3 && freed.None?
      invariant 0 <= pass <= 3
      invariant if freed.Some? then Evicted(ly, freed) == EvictLayer(ly0, gmax) else Searched(ly0, pass, ly)
    {
      ly, freed := EvictPass(ly0, gmax, pass, ly);
      pass := pass + 1;
    }
    if freed.None? { FoundNobody(ly0, ly, gmax); }
  }

  lemma {:induction false} FoundNobody(ly0: Layer, ly: Layer, gmax: nat)
    requires LayerShape(ly0, |ly0.ent|) && Searched(ly0, 3, ly)
    ensures Evicted(ly, None) == EvictLayer(ly0, gmax)
  {
    AgeNone(ly0.ent, ly0.main);
  }

  /** The victim's slot is given up, and the victim becomes the newest ghost. */
  method ForgetSlot(ly0: Layer, e: nat, gmax: nat) returns (ly: Layer)
    requires e < |ly0.ent| && e < |ly0.slot|
    ensures ly == Drop(ly0, e, gmax)
  {
    var en := ly0.ent[e].(slot := NO_SLOT, seg := NotCached, resident := false, freq := 0);
    ly := ly0.(ent := ly0.ent[e := en], slot := ly0.slot[e := NO_SLOT], resident := ly0.resident - 1,
               ghosts := ly0.ghosts + [e]);
    while |ly.ghosts| > gmax
      invariant TrimFront(ly.ghosts, gmax) == TrimFront(ly0.ghosts + [e], gmax)
      invariant ly == ly0.(ent := ly0.ent[e := en], slot := ly0.slot[e := NO_SLOT], resident := ly0.resident - 1,
                           ghosts := ly.ghosts)
    {
      ly := ly.(ghosts := ly.ghosts[1..]);
    }
  }

  /** Quotas shifted toward the layers with more ghost hits, in three loops: propose and
      clamp, scale and floor, top up. */
  method RebalanceQuota(a: QuotaModel.Adapt, nExpert: nat, nSlot: nat, quota: seq<nat>, hits: seq<nat>)
    returns (nq: seq<nat>)
    requires |quota| == |hits| > 0
    ensures nq == QuotaModel.Rebalanced(a, nExpert, nSlot, quota, hits)
  {
    var mean := QuotaModel.Mean(hits);
    if mean <= 0.0 { return quota; }
    ghost var w := QuotaModel.Wants(a, nExpert, quota, hits);
    var n := |quota|;
    nq := [];
    var sum := 0;
    var l := 0;
    while l < n
      invariant 0 <= l <= n && nq == w[..l] && sum == Sum(w[..l])
    {
      var v := Propose(a, nExpert, quota[l], hits[l], mean);
      assert w[..l + 1][..l] == w[..l];
      nq, sum := nq + [v], sum + v;
      l := l + 1;
    }
    assert w[..n] == w;
    nq := Normalise(nq, sum, nSlot, a.quotaMin);
  }

  /** What one layer asks for. */
  method Propose(a: QuotaModel.Adapt, nExpert: nat, quota: nat, hits: nat, mean: real) returns (v: nat)
    requires mean > 0.0
    ensures v == QuotaModel.Wanted(a, nExpert, quota, QuotaModel.Delta(a.eta, hits, mean, quota))
  {
    var delta := a.eta * (hits as real - mean) / mean * quota as real;
    assert delta == QuotaModel.Delta(a.eta, hits, mean, quota);
    var q: int := quota + Truncate(delta + (if delta >= 0.0 then 0.5 else -0.5));
    if q < a.quotaMin { q := a.quotaMin; }
    if q > nExpert { q := nExpert; }
    v := q;
  }

  method Normalise(w: seq<nat>, total: int, nSlot: nat, quotaMin: nat) returns (nq: seq<nat>)
    requires |w| > 0 && total == Sum(w)
    ensures nq == QuotaModel.Normalised(w, nSlot, quotaMin)
  {
    ghost var f := QuotaModel.Floored(QuotaModel.Shares(w, nSlot), quotaMin);
    nq := [];
    var sum := 0;
    var l := 0;
    while l < |w|
      invariant 0 <= l <= |w| && nq == f[..l] && sum == Sum(f[..l])
    {
      var v := Max(quotaMin, QuotaModel.Share(w[l], nSlot, total));
      assert f[..l + 1][..l] == f[..l];
      nq, sum := nq + [v], sum + v;
      l := l + 1;
    }
    assert f[..|w|] == f;
    l := 0;
    while sum < nSlot
      invariant |nq| == |w| && 0 <= l && sum == Sum(nq)
      invariant QuotaModel.TopUp(nq, l, QuotaModel.Missing(nq, nSlot)) == QuotaModel.Normalised(w, nSlot, quotaMin)
      decreases nSlot - sum
    {
      SumUpdate(nq, l % |nq|, nq[l % |nq|] + 1);
      nq := nq[l % |nq| := nq[l % |nq|] + 1];
      sum, l := sum + 1, l + 1;
    }
  }

  class ExpertCache {
    const nExpert: nat
    const ghostMult: nat
    const nSlot: nat
    const adapt: QuotaModel.Adapt

    var layers: seq<Layer>
    var quota: seq<nat>
    var free: seq<nat>
    var st: Stats
    var step: nat

    ghost function View(): State
      reads this
    {
      State(nExpert, ghostMult, nSlot, layers, quota, free, st, step)
    }

    ghost predicate Valid()
      reads this
    {
      Inv(View()) && |layers| > 0
    }

    constructor (nLayer: nat, nExpert: nat, slots: nat, cacheFrac: real, ghostMult: nat, adapt: QuotaModel.Adapt)
      requires nLayer > 0 && cacheFrac >= 0.0
      requires SlotCount(nLayer, nExpert, slots, cacheFrac) <= NO_SLOT
      ensures View() == Init(nLayer, nExpert, SlotCount(nLayer, nExpert, slots, cacheFrac), ghostMult)
      ensures this.adapt == adapt
      ensures Valid()
    {
      var n := SlotCount(nLayer, nExpert, slots, cacheFrac);
      this.nExpert, this.ghostMult, this.nSlot, this.adapt := nExpert, ghostMult, n, adapt;
      layers := seq(nLayer, _ => EmptyLayer(nExpert));
      var even := EvenSplit(n, nLayer);
      quota := even;
      free := seq(n, k requires 0 <= k < n => n - 1 - k);
      st, step := NO_STATS, 0;
      InitInv(nLayer, nExpert, n, ghostMult);
    }

  
    method EvictOne(l: nat) returns (ok: bool)
      requires Tidy(View()) && l < |layers|
      modifies this`layers, this`free, this`st
      ensures (View(), ok) == CacheModel.EvictOne(old(View()), l)
    {
      var ls, freed := EvictFrom(layers[l], quota[l] * ghostMult);
      layers := layers[l := ls];
      ok := freed.Some?;
      if ok {
        free := free + [freed.value];
        st := st.(evict := st.evict + 1);
      }
    }

    /** Pop the top of the free stack. */
    method PopFree() returns (x: nat)
      requires |free| > 0
      modifies this`free
      ensures (View(), x) == CacheModel.PopFree(old(View()))
    {
      x := free[|free| - 1];
      free := free[..|free| - 1];
    }

    /** The layer furthest over its quota that has something to give. */
    method FindVictimLayer(l: nat) returns (v: nat)
      requires |layers| == |quota|
      ensures v == VictimLayer(View(), l)
    {
      v := l;
      var worst: Option<int> := None;
      var k := 0;
      while k < |layers|
        invariant 0 <= k <= |layers|
        invariant match WorstLayer(View(), k)
          case None => worst == None && v == l
          case Some(w) => v == w && worst == Some(Over(View(), w))
      {
        var over := layers[k].resident - quota[k];
        if (worst == None || over > worst.value) && layers[k].resident > layers[k].pinned {
          worst, v := Some(over), k;
        }
        k := k + 1;
      }
    }

    method AllocSlot(l: nat) returns (x: nat)
      requires Tidy(View()) && l < |layers|
      modifies this`layers, this`free, this`st
      ensures (View(), x) == CacheModel.AllocSlot(old(View()), l)
    {
      if layers[l].resident >= quota[l] {
        var ok := EvictOne(l);
        if !ok { return NO_SLOT; }
      }
      if |free| > 0 {
        x := PopFree();
        return;
      }
      var v := FindVictimLayer(l);
      var ok := EvictOne(v);
      if !ok || |free| == 0 { return NO_SLOT; }
      x := PopFree();
    }

    /** Request expert e of layer l: true on a hit. slot is NO_SLOT on bypass and exhaustion. */
    method Acquire(l: nat, e: nat, o: Origin) returns (hit: bool, slot: nat)
      requires Valid() && l < |layers| && e < nExpert
      modifies this`layers, this`free, this`st
      ensures Valid()
      ensures Answer(View(), hit, slot) == CacheModel.Acquire(old(View()), l, e, o)
    {
      InvTidy(View());
      AcquireKeeps(View(), l, e, o);
      AcquireShape(View(), l, e, o);
      hit, slot := Serve(l, e, o);
    }

    method Serve(l: nat, e: nat, o: Origin) returns (hit: bool, slot: nat)
      requires Tidy(View()) && l < |layers| && e < nExpert
      modifies this`layers, this`free, this`st
      ensures Answer(View(), hit, slot) == CacheModel.Acquire(old(View()), l, e, o)
    {
      if layers[l].ent[e].seg != NotCached {
        slot := Hit(l, e);
        return true, slot;
      }
      MissShape(View(), l, e);
      var wasGhost := Miss(l, e);
      hit := false;
      if o == Sweep {
        st := st.(bypass := st.bypass + 1);
        return false, NO_SLOT;
      }
      AllocShape(View(), l);
      slot := AllocSlot(l);
      if slot != NO_SLOT {
        Admit(l, e, slot, o, wasGhost);
      }
    }

    /** The expert takes its slot: a ghost at the back of MAIN, a low-confidence prefetch at the
        front of SMALL, everybody else at its back. */
    method Admit(l: nat, e: nat, slot: nat, o: Origin, wasGhost: bool)
      requires Shape(View()) && l < |layers| && e < nExpert
      modifies this`layers, this`st
      ensures View() == AdmitState(old(View()), l, e, slot, o, wasGhost)
    {
      var ls := layers[l];
      var en := ls.ent[e].(slot := slot, rc := 1, resident := false);
      ls := ls.(slot := ls.slot[e := slot]);
      st := st.(admit := st.admit + 1);
      if wasGhost {
        ls := ls.(main := ls.main + [e]);
        en := en.(seg := Main);
      } else if o == PrefetchLow {
        ls := ls.(small := [e] + ls.small);
        en := en.(seg := Small);
      } else {
        ls := ls.(small := ls.small + [e]);
        en := en.(seg := Small);
      }
      layers := layers[l := ls.(ent := ls.ent[e := en], resident := ls.resident + 1)];
    }

    method Hit(l: nat, e: nat) returns (slot: nat)
      requires l < |layers| && e < |layers[l].ent|
      modifies this`layers, this`st
      ensures layers == old(layers)[l := HitLayer(old(layers)[l], e, step)]
      ensures st == HitStats(old(st), old(layers)[l].ent[e].seg, Promotes(old(layers)[l], e))
      ensures slot == old(layers)[l].ent[e].slot
    {
      var ls := layers[l];
      var en := ls.ent[e].(last := step);
      st := st.(hit := st.hit + 1);
      if en.freq < FREQ_MAX { en := en.(freq := en.freq + 1); }
      en := en.(rc := (en.rc + 1) % RC_MOD);
      match en.seg {
        case Pinned => st := st.(hitPinned := st.hitPinned + 1);
        case Small =>
          st := st.(hitSmall := st.hitSmall + 1);
          if en.freq >= 2 {
            var i := Find(ls.small, e);
            if i < |ls.small| {
              ls := ls.(small := ls.small[..i] + ls.small[i + 1..], main := ls.main + [e]);
              en := en.(seg := Main);
              st := st.(promote := st.promote + 1);
            }
          }
        case Main => st := st.(hitMain := st.hitMain + 1);
        case NotCached =>
      }
      slot := en.slot;
      layers := layers[l := ls.(ent := ls.ent[e := en])];
    }

    method Miss(l: nat, e: nat) returns (wasGhost: bool)
      requires Shape(View()) && l < |layers| && e < nExpert
      modifies this`layers, this`st
      ensures View() == MissState(old(View()), l, e)
      ensures wasGhost == (e in old(layers)[l].ghosts)
    {
      var ls := layers[l];
      ls := ls.(ent := ls.ent[e := ls.ent[e].(last := step, freq := 1)]);
      st := st.(miss := st.miss + 1);
      var i := Find(ls.ghosts, e);
      wasGhost := i < |ls.ghosts|;
      if wasGhost {
        ls := ls.(ghosts := ls.ghosts[..i] + ls.ghosts[i + 1..], ghostHits := ls.ghostHits + 1);
        st := st.(ghostHit := st.ghostHit + 1);
      }
      layers := layers[l := ls];
    }

    method MarkResident(l: nat, e: nat, nbytes: nat)
      requires Valid() && l < |layers| && e < nExpert
      modifies this`layers, this`st
      ensures Valid() <==> old(layers[l].ent[e].seg) != NotCached
      ensures View() == CacheModel.MarkResident(old(View()), l, e, nbytes)
    {
      MarkResidentKeeps(View(), l, e, nbytes);
      Mark(l, e, nbytes);
    }

    method Mark(l: nat, e: nat, nbytes: nat)
      requires l < |layers| && e < |layers[l].ent|
      modifies this`layers, this`st
      ensures View() == CacheModel.MarkResident(old(View()), l, e, nbytes)
    {
      var ls := layers[l];
      var en := ls.ent[e];
      if !en.resident {
        layers := layers[l := ls.(ent := ls.ent[e := en.(resident := true)])];
        st := st.(bytesFetched := st.bytesFetched + nbytes);
      }
    }

    method Release(l: nat, e: nat)
      requires Valid() && l < |layers| && e < nExpert
      modifies this`layers
      ensures Valid()
      ensures View() == CacheModel.Release(old(View()), l, e)
    {
      ReleaseKeeps(View(), l, e);
      Unref(l, e);
    }

    method Unref(l: nat, e: nat)
      requires l < |layers| && e < |layers[l].ent|
      modifies this`layers
      ensures View() == CacheModel.Release(old(View()), l, e)
    {
      var ls := layers[l];
      var en := ls.ent[e];
      if en.rc > 0 {
        layers := layers[l := ls.(ent := ls.ent[e := en.(rc := en.rc - 1)])];
      }
    }

    /** Pin the top experts of every layer by calibrated frequency. orders[l] is what
        partial_sort made of the experts of layer l. */
    method BuildPinned(freqCount: nat, pinRatio: real, orders: seq<seq<nat>>)
      requires Valid()
      requires pinRatio > 0.0 ==> Orders(View(), orders, PinCount(nExpert, pinRatio))
      modifies this`layers, this`free
      ensures Valid() <==> GhostsAbsent(View())
      ensures pinRatio <= 0.0 || freqCount != |old(layers)| * nExpert ==> View() == old(View())
      ensures pinRatio > 0.0 && freqCount == |old(layers)| * nExpert ==>
        View() == PinAll(old(View()), orders, PinCount(nExpert, pinRatio), |orders|)
    {
      ValidGhosts(View());
      if pinRatio <= 0.0 || freqCount != |layers| * nExpert { return; }
      PinAllKeepsIff(View(), orders, PinCount(nExpert, pinRatio), |orders|);
      PinLayers(PinCount(nExpert, pinRatio), orders);
    }

    method PinLayers(perLayer: nat, orders: seq<seq<nat>>)
      requires Shape(View()) && Orders(View(), orders, perLayer)
      modifies this`layers, this`free
      ensures View() == PinAll(old(View()), orders, perLayer, |orders|)
    {
      ghost var s0 := View();
      var l := 0;
      while l < |layers|
        invariant 0 <= l <= |s0.layers| == |layers|
        invariant View() == PinAll(s0, orders, perLayer, l)
        decreases |s0.layers| - l
      {
        PinSomeShape(View(), l, orders[l][..perLayer]);
        PinLayerLoop(l, orders[l][..perLayer]);
        l := l + 1;
      }
    }

    method PinLayerLoop(l: nat, es: seq<nat>)
      requires Shape(View()) && l < |layers| && QueueIn(es, nExpert)
      modifies this`layers, this`free
      ensures View() == PinSome(old(View()), l, es)
    {
      ghost var s0 := View();
      var i := 0;
      while i < |es| && |free| > 0
        invariant 0 <= i <= |es|
        invariant Shape(View()) && |layers| == |s0.layers|
        invariant PinSome(View(), l, es[i..]) == PinSome(s0, l, es)
      {
        var e := es[i];
        assert es[i..][1..] == es[i + 1..];
        if layers[l].ent[e].seg == NotCached {
          var x := PopFree();
          var ls := layers[l];
          var en := ls.ent[e].(slot := x, seg := Pinned, resident := true);
          layers := layers[l := ls.(ent := ls.ent[e := en], slot := ls.slot[e := x], pinned := ls.pinned + 1,
                                    resident := ls.resident + 1)];
        }
        i := i + 1;
      }
    }

    method EndStep()
      requires Valid() && AdaptOk(adapt)
      modifies this`step, this`quota, this`layers
      ensures Valid()
      ensures View() == CacheReachability.EndStep(old(View()), adapt)
    {
      EndStepKeeps(View(), adapt);
      Advance();
    }

    method Advance()
      requires |layers| == |quota| > 0 && AdaptOk(adapt)
      modifies this`step, this`quota, this`layers
      ensures View() == CacheReachability.EndStep(old(View()), adapt)
    {
      step := step + 1;
      if adapt.on && step % adapt.period == 0 {
        quota := RebalanceQuota(adapt, nExpert, nSlot, quota, GhostHits(layers));
        layers := ClearHits(layers);
      }
    }
  }
}
