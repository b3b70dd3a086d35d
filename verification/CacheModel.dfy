/** The value-level state of the expert cache and what each operation does to it.

    The vectors ent_ and slot_ are cut at their layer boundaries (entry l, e is
    layers[l].ent[e]) and stored beside the queues of that layer. */
module CacheModel {
  import opened Seqs

  const NO_SLOT: nat := 0xFFFF_FFFF
  const FREQ_MAX: nat := 3
  /** rc is a uint16_t and wraps here. */
  const RC_MOD: nat := 0x1_0000

  datatype Origin = Demand | PrefetchHigh | PrefetchLow | Sweep

  datatype Seg = NotCached | Pinned | Small | Main

  datatype Entry = Entry(slot: nat, rc: nat, seg: Seg, resident: bool, freq: nat, last: nat)

  const EMPTY_ENTRY := Entry(NO_SLOT, 0, NotCached, false, 0, 0)

  datatype Stats = Stats(
    hit: nat, miss: nat, hitPinned: nat, hitSmall: nat, hitMain: nat, ghostHit: nat,
    admit: nat, evict: nat, bypass: nat, promote: nat, bytesFetched: nat)

  const NO_STATS := Stats(0, 0, 0, 0, 0, 0, 0, 0, 0, 0, 0)

  /** One layer: its entries, its slot table row, its queues (front first) and counters. */
  datatype Layer = Layer(
    ent: seq<Entry>, slot: seq<nat>,
    small: seq<nat>, main: seq<nat>, ghosts: seq<nat>,
    ghostHits: nat, resident: int, pinned: int)

  /** free is a stack whose top is its last element. */
  datatype State = State(
    nExpert: nat, ghostMult: nat, nSlot: nat,
    layers: seq<Layer>, quota: seq<nat>, free: seq<nat>, stats: Stats, step: nat)

  // ---------------------------------------------------------------------------
  // Shapes: what indexing needs
  // ---------------------------------------------------------------------------

  ghost predicate QueueIn(q: seq<nat>, n: nat) {
    forall k :: 0 <= k < |q| ==> q[k] < n
  }

  ghost predicate LayerShape(ly: Layer, n: nat) {
    && |ly.ent| == n && |ly.slot| == n
    && QueueIn(ly.small, n) && QueueIn(ly.main, n) && QueueIn(ly.ghosts, n)
  }

  ghost predicate Shape(s: State) {
    && |s.layers| == |s.quota|
    && forall l :: 0 <= l < |s.layers| ==> LayerShape(s.layers[l], s.nExpert)
  }

  /** A one-layer state. */
  ghost predicate Plain(s: State) {
    |s.layers| == 1 && |s.quota| == 1 && LayerShape(s.layers[0], s.nExpert)
  }

  /** A state whose queues can be scanned: no expert is queued twice. */
  ghost predicate Tidy(s: State) {
    Shape(s) && forall l :: 0 <= l < |s.layers| ==> NoDup(s.layers[l].small) && NoDup(s.layers[l].main)
  }

  // ---------------------------------------------------------------------------
  // Eviction from one layer
  // ---------------------------------------------------------------------------

  predicate Idle(en: Entry) { en.rc == 0 }

  /** Idle and without a second chance left. */
  predicate Cold(en: Entry) { en.rc == 0 && en.freq <= 1 }

  function FirstIdle(q: seq<nat>, ent: seq<Entry>): (i: nat)
    requires QueueIn(q, |ent|)
    ensures i <= |q|
    ensures i < |q| ==> Idle(ent[q[i]])
    ensures forall k :: 0 <= k < i ==> !Idle(ent[q[k]])
  {
    if |q| == 0 || Idle(ent[q[0]]) then 0
    else
      assert QueueIn(q[1..], |ent|);
      1 + FirstIdle(q[1..], ent)
  }

  function FirstCold(q: seq<nat>, ent: seq<Entry>): (i: nat)
    requires QueueIn(q, |ent|)
    ensures i <= |q|
    ensures i < |q| ==> Cold(ent[q[i]])
    ensures forall k :: 0 <= k < i ==> !Cold(ent[q[k]])
  {
    if |q| == 0 || Cold(ent[q[0]]) then 0
    else
      assert QueueIn(q[1..], |ent|);
      1 + FirstCold(q[1..], ent)
  }

  /** Every idle entry in q that still had a second chance has used one. */
  function Age(ent: seq<Entry>, q: seq<nat>): (r: seq<Entry>)
    ensures |r| == |ent|
  {
    seq(|ent|, e requires 0 <= e < |ent| =>
      if e in q && ent[e].rc == 0 && ent[e].freq > 1 then ent[e].(freq := ent[e].freq - 1) else ent[e])
  }

  /** Expert e gives up its slot and is remembered as a ghost. */
  function Drop(ly: Layer, e: nat, gmax: nat): Layer
    requires e < |ly.ent| && e < |ly.slot|
  {
    ly.(ent := ly.ent[e := ly.ent[e].(slot := NO_SLOT, seg := NotCached, resident := false, freq := 0)],
        slot := ly.slot[e := NO_SLOT],
        resident := ly.resident - 1,
        ghosts := TrimFront(ly.ghosts + [e], gmax))
  }

  datatype Evicted = Evicted(ly: Layer, freed: Option<nat>)

  /** The i-th expert of SMALL leaves; the ones scanned before it went to the back. */
  function EvictSmall(ly: Layer, i: nat, gmax: nat): Evicted
    requires LayerShape(ly, |ly.ent|) && i < |ly.small|
  {
    Evicted(Drop(ly.(small := Rotate(ly.small, i)), ly.small[i], gmax), Some(ly.ent[ly.small[i]].slot))
  }

  /** The k-th expert of MAIN leaves, after the experts in q were aged. */
  function EvictMain(ly: Layer, q: seq<nat>, k: nat, gmax: nat): Evicted
    requires LayerShape(ly, |ly.ent|) && k < |ly.main|
  {
    Evicted(Drop(ly.(ent := Age(ly.ent, q), main := Rotate(ly.main, k)), ly.main[k], gmax), Some(ly.ent[ly.main[k]].slot))
  }

  /** SMALL's first idle entry; else MAIN's first cold one, aging the idle ones before it;
      else MAIN's first idle one after all of them aged; else nothing. */
  function EvictLayer(ly: Layer, gmax: nat): Evicted
    requires LayerShape(ly, |ly.ent|)
  {
    var i := FirstIdle(ly.small, ly.ent);
    var j := FirstCold(ly.main, ly.ent);
    var k := FirstIdle(ly.main, ly.ent);
    if i < |ly.small| then EvictSmall(ly, i, gmax)
    else if j < |ly.main| then EvictMain(ly, ly.main[..j], j, gmax)
    else if k < |ly.main| then EvictMain(ly, ly.main, k, gmax)
    else Evicted(ly, None)
  }

  function EvictOne(s: State, l: nat): (r: (State, bool))
    requires Shape(s) && l < |s.layers|
  {
    var ev := EvictLayer(s.layers[l], s.quota[l] * s.ghostMult);
    match ev.freed
    case None => (s.(layers := s.layers[l := ev.ly]), false)
    case Some(x) =>
      (s.(layers := s.layers[l := ev.ly], free := s.free + [x], stats := s.stats.(evict := s.stats.evict + 1)), true)
  }

  // ---------------------------------------------------------------------------
  // Slot allocation
  // ---------------------------------------------------------------------------

  function Over(s: State, l: nat): int
    requires l < |s.layers| && l < |s.quota|
  {
    s.layers[l].resident - s.quota[l]
  }

  /** Among the first k layers, the first that is furthest over quota and has an
      unpinned resident; None when there is no such layer. */
  function WorstLayer(s: State, k: nat): (r: Option<nat>)
    requires k <= |s.layers| && |s.layers| == |s.quota|
    ensures r.Some? ==> r.value < k
  {
    if k == 0 then None
    else
      var w := WorstLayer(s, k - 1);
      if s.layers[k - 1].resident > s.layers[k - 1].pinned && (w == None || Over(s, k - 1) > Over(s, w.value))
      then Some(k - 1) else w
  }

  function VictimLayer(s: State, l: nat): nat
    requires |s.layers| == |s.quota|
  {
    match WorstLayer(s, |s.layers|)
    case None => l
    case Some(v) => v
  }

  function PopFree(s: State): (State, nat)
    requires |s.free| > 0
  {
    (s.(free := s.free[..|s.free| - 1]), s.free[|s.free| - 1])
  }

  function Steal(s: State, l: nat): (State, nat)
    requires Shape(s) && l < |s.layers|
  {
    var r := EvictOne(s, VictimLayer(s, l));
    if !r.1 || |r.0.free| == 0 then (r.0, NO_SLOT) else PopFree(r.0)
  }

  function TakeSlot(s: State, l: nat): (State, nat)
    requires Shape(s) && l < |s.layers|
  {
    if |s.free| > 0 then PopFree(s) else Steal(s, l)
  }

  lemma EvictSmallShape(ly: Layer, i: nat, gmax: nat)
    requires LayerShape(ly, |ly.ent|) && i < |ly.small|
    ensures LayerShape(EvictSmall(ly, i, gmax).ly, |ly.ent|)
  {
    assert QueueIn(ly.ghosts + [ly.small[i]], |ly.ent|);
  }

  lemma EvictMainShape(ly: Layer, q: seq<nat>, k: nat, gmax: nat)
    requires LayerShape(ly, |ly.ent|) && k < |ly.main|
    ensures LayerShape(EvictMain(ly, q, k, gmax).ly, |ly.ent|)
  {
    assert QueueIn(ly.ghosts + [ly.main[k]], |ly.ent|);
  }

  lemma EvictLayerShape(ly: Layer, gmax: nat)
    requires LayerShape(ly, |ly.ent|)
    ensures LayerShape(EvictLayer(ly, gmax).ly, |ly.ent|)
  {
    var i := FirstIdle(ly.small, ly.ent);
    var j := FirstCold(ly.main, ly.ent);
    var k := FirstIdle(ly.main, ly.ent);
    if i < |ly.small| { EvictSmallShape(ly, i, gmax); }
    else if j < |ly.main| { EvictMainShape(ly, ly.main[..j], j, gmax); }
    else if k < |ly.main| { EvictMainShape(ly, ly.main, k, gmax); }
  }

  lemma EvictShape(s: State, l: nat)
    requires Shape(s) && l < |s.layers|
    ensures var r := EvictOne(s, l);
      && Shape(r.0) && |r.0.layers| == |s.layers| && r.0.quota == s.quota && r.0.nExpert == s.nExpert
      && r.0.nSlot == s.nSlot && r.0.ghostMult == s.ghostMult && r.0.step == s.step
      && (forall k :: 0 <= k < |s.layers| && k != l ==> r.0.layers[k] == s.layers[k])
      && (r.1 ==> |r.0.free| == |s.free| + 1)
      && (!r.1 ==> r.0.free == s.free && r.0.stats == s.stats)
  {
    EvictLayerShape(s.layers[l], s.quota[l] * s.ghostMult);
  }

  function AllocSlot(s: State, l: nat): (State, nat)
    requires Shape(s) && l < |s.layers|
  {
    if s.layers[l].resident >= s.quota[l] then
      EvictShape(s, l);
      var r := EvictOne(s, l);
      if !r.1 then (r.0, NO_SLOT) else TakeSlot(r.0, l)
    else
      TakeSlot(s, l)
  }

  lemma AllocShape(s: State, l: nat)
    requires Shape(s) && l < |s.layers|
    ensures var r := AllocSlot(s, l).0;
      && Shape(r) && |r.layers| == |s.layers| && r.quota == s.quota && r.nExpert == s.nExpert
      && r.nSlot == s.nSlot && r.ghostMult == s.ghostMult && r.step == s.step
  {
    EvictShape(s, l);
    var r := if s.layers[l].resident >= s.quota[l] then EvictOne(s, l).0 else s;
    EvictShape(r, VictimLayer(r, l));
  }

  // ---------------------------------------------------------------------------
  // Requests
  // ---------------------------------------------------------------------------

  predicate Promotes(ly: Layer, e: nat)
    requires e < |ly.ent|
  {
    ly.ent[e].seg == Small && ly.ent[e].freq + 1 >= 2 && e in ly.small
  }

  /** A request for a cached expert. */
  function HitLayer(ly: Layer, e: nat, step: nat): Layer
    requires e < |ly.ent|
  {
    var en := ly.ent[e].(last := step,
                         freq := if ly.ent[e].freq < FREQ_MAX then ly.ent[e].freq + 1 else ly.ent[e].freq,
                         rc := (ly.ent[e].rc + 1) % RC_MOD);
    if en.seg == Small && en.freq >= 2 && e in ly.small then
      ly.(ent := ly.ent[e := en.(seg := Main)], small := Erase(ly.small, e), main := ly.main + [e])
    else
      ly.(ent := ly.ent[e := en])
  }

  function HitStats(st: Stats, seg: Seg, promoted: bool): Stats {
    var st1 := st.(hit := st.hit + 1);
    match seg
    case Pinned => st1.(hitPinned := st1.hitPinned + 1)
    case Small => st1.(hitSmall := st1.hitSmall + 1, promote := st1.promote + (if promoted then 1 else 0))
    case Main => st1.(hitMain := st1.hitMain + 1)
    case NotCached => st1
  }

  /** The bookkeeping of a miss before admission is decided. */
  function MissLayer(ly: Layer, e: nat, step: nat): Layer
    requires e < |ly.ent|
  {
    ly.(ent := ly.ent[e := ly.ent[e].(last := step, freq := 1)],
        ghosts := Erase(ly.ghosts, e),
        ghostHits := ly.ghostHits + (if e in ly.ghosts then 1 else 0))
  }

  /** Expert e takes slot x: MAIN after a ghost hit, else SMALL at the end its origin earns. */
  function AdmitLayer(ly: Layer, e: nat, x: nat, o: Origin, wasGhost: bool): Layer
    requires e < |ly.ent| && e < |ly.slot|
  {
    var en := ly.ent[e].(slot := x, rc := 1, resident := false, seg := if wasGhost then Main else Small);
    ly.(ent := ly.ent[e := en], slot := ly.slot[e := x], resident := ly.resident + 1,
        small := if wasGhost then ly.small else if o == PrefetchLow then [e] + ly.small else ly.small + [e],
        main := if wasGhost then ly.main + [e] else ly.main)
  }

  /** hit: was it cached; slot: the slot answered, NO_SLOT on bypass or exhaustion. */
  datatype Answer = Answer(s: State, hit: bool, slot: nat)

  function MissState(s: State, l: nat, e: nat): State
    requires Shape(s) && l < |s.layers| && e < s.nExpert
  {
    s.(layers := s.layers[l := MissLayer(s.layers[l], e, s.step)],
       stats := s.stats.(miss := s.stats.miss + 1,
                         ghostHit := s.stats.ghostHit + (if e in s.layers[l].ghosts then 1 else 0)))
  }

  function AdmitState(s: State, l: nat, e: nat, x: nat, o: Origin, wasGhost: bool): State
    requires Shape(s) && l < |s.layers| && e < s.nExpert
  {
    s.(layers := s.layers[l := AdmitLayer(s.layers[l], e, x, o, wasGhost)],
       stats := s.stats.(admit := s.stats.admit + 1))
  }

  lemma MissShape(s: State, l: nat, e: nat)
    requires Shape(s) && l < |s.layers| && e < s.nExpert
    ensures Shape(MissState(s, l, e))
  {
    var ly := s.layers[l];
    assert forall x :: x in Erase(ly.ghosts, e) ==> x in ly.ghosts;
  }

  function Acquire(s: State, l: nat, e: nat, o: Origin): Answer
    requires Shape(s) && l < |s.layers| && e < s.nExpert
  {
    var ly := s.layers[l];
    if ly.ent[e].seg != NotCached then
      Answer(s.(layers := s.layers[l := HitLayer(ly, e, s.step)],
                stats := HitStats(s.stats, ly.ent[e].seg, Promotes(ly, e))),
             true, ly.ent[e].slot)
    else
      MissShape(s, l, e);
      var m := MissState(s, l, e);
      if o == Sweep then
        Answer(m.(stats := m.stats.(bypass := m.stats.bypass + 1)), false, NO_SLOT)
      else
        AllocShape(m, l);
        var (a, x) := AllocSlot(m, l);
        if x == NO_SLOT then Answer(a, false, NO_SLOT)
        else Answer(AdmitState(a, l, e, x, o, e in ly.ghosts), false, x)
  }

  lemma {:induction false} HitShape(s: State, l: nat, e: nat)
    requires Shape(s) && l < |s.layers| && e < s.nExpert
    ensures Shape(s.(layers := s.layers[l := HitLayer(s.layers[l], e, s.step)]))
  {
    var ly := s.layers[l];
    HitLayerShape(ly, e, s.step, s.nExpert);
  }

  lemma {:induction false} HitLayerShape(ly: Layer, e: nat, step: nat, n: nat)
    requires LayerShape(ly, n) && e < n
    ensures LayerShape(HitLayer(ly, e, step), n)
  {
    EraseIn(ly.small, e, n);
    assert QueueIn(ly.main + [e], n);
  }

  lemma {:induction false} EraseIn(q: seq<nat>, e: nat, n: nat)
    requires QueueIn(q, n)
    ensures QueueIn(Erase(q, e), n)
  {
  }

  lemma {:induction false} AdmitShape(s: State, l: nat, e: nat, x: nat, o: Origin, wasGhost: bool)
    requires Shape(s) && l < |s.layers| && e < s.nExpert
    ensures Shape(AdmitState(s, l, e, x, o, wasGhost))
  {
  }

  lemma {:induction false} AcquireShape(s: State, l: nat, e: nat, o: Origin)
    requires Shape(s) && l < |s.layers| && e < s.nExpert
    ensures var t := Acquire(s, l, e, o).s;
      && Shape(t) && |t.layers| == |s.layers| && t.nExpert == s.nExpert && t.nSlot == s.nSlot && t.quota == s.quota
      && t.ghostMult == s.ghostMult && t.step == s.step
  {
    var ly := s.layers[l];
    if ly.ent[e].seg != NotCached {
      HitShape(s, l, e);
    } else {
      MissShape(s, l, e);
      var m := MissState(s, l, e);
      AllocShape(m, l);
      if o != Sweep {
        var (a, x) := AllocSlot(m, l);
        AdmitShape(a, l, e, x, o, e in ly.ghosts);
      }
    }
  }

  function SetEntry(s: State, l: nat, e: nat, en: Entry): State
    requires l < |s.layers| && e < |s.layers[l].ent|
  {
    s.(layers := s.layers[l := s.layers[l].(ent := s.layers[l].ent[e := en])])
  }

  function MarkResident(s: State, l: nat, e: nat, nbytes: nat): State
    requires l < |s.layers| && e < |s.layers[l].ent|
  {
    var en := s.layers[l].ent[e];
    if en.resident then s
    else SetEntry(s, l, e, en.(resident := true)).(stats := s.stats.(bytesFetched := s.stats.bytesFetched + nbytes))
  }

  function Release(s: State, l: nat, e: nat): State
    requires l < |s.layers| && e < |s.layers[l].ent|
  {
    var en := s.layers[l].ent[e];
    if en.rc > 0 then SetEntry(s, l, e, en.(rc := en.rc - 1)) else s
  }

  /** The freshly built cache: empty layers, slot 0 on top of the free stack. */
  function EmptyLayer(n: nat): Layer {
    Layer(seq(n, _ => EMPTY_ENTRY), seq(n, _ => NO_SLOT), [], [], [], 0, 0, 0)
  }

  function EvenQuota(nSlot: nat, nLayer: nat): seq<nat>
    requires nLayer > 0
  {
    seq(nLayer, l => nSlot / nLayer + (if l < nSlot % nLayer then 1 else 0))
  }

  function Init(nLayer: nat, nExpert: nat, nSlot: nat, ghostMult: nat): State
    requires nLayer > 0
  {
    State(nExpert, ghostMult, nSlot, seq(nLayer, _ => EmptyLayer(nExpert)), EvenQuota(nSlot, nLayer),
          seq(nSlot, k requires 0 <= k < nSlot => nSlot - 1 - k), NO_STATS, 0)
  }
}
