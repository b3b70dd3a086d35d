/** The dense streaming protocol as a step system. Unlike the expert arenas a buffer's layer
    number is recorded only when its load has finished, so while a load runs the record is
    stale; the join makes that harmless. */
module DenseProtocol {
  import opened Memory

  /** The weights of a streamed layer, laid out one after the other. */
  type Weights = seq<Block>

  datatype Buffer = Buffer(mem: Block, resident: int)

  /** A load in progress: layer il, the first k weights read. */
  datatype Load = NoLoad | Load(il: int, k: nat)

  datatype Graph = Between | Filling(il: int) | Computing(il: int)

  /** layers: the streamed layers with recorded weights; nlayer, first: which layers the kick
      considers streamed. */
  datatype Config = Config(layers: map<int, Weights>, nbuf: nat, size: nat, first: int, nlayer: int)

  /** bg: the background load; fg: the load op's own. */
  datatype St = St(bufs: seq<Buffer>, bg: Load, fg: Load, graph: Graph)

  function At(w: Weights, k: nat): nat
    requires k <= |w|
  {
    if k == 0 then 0 else At(w, k - 1) + |w[k - 1]|
  }

  lemma {:induction false} AtMono(w: Weights, j: nat, k: nat)
    requires j <= k <= |w|
    ensures At(w, j) <= At(w, k)
  {
    if j < k { AtMono(w, j, k - 1); }
  }

  ghost predicate ConfigOk(c: Config) {
    c.nbuf >= 1 && forall il :: il in c.layers ==> il >= 0 && At(c.layers[il], |c.layers[il]|) <= c.size
  }

  function Buf(c: Config, il: int): (b: nat)
    requires c.nbuf >= 1
    ensures b < c.nbuf
  {
    il % c.nbuf
  }

  /** The first k weights are in place. */
  ghost predicate Filled(w: Weights, mem: Block, k: nat) {
    k <= |w| && At(w, k) <= |mem| &&
    forall j :: 0 <= j < k ==> WeightAt(w, mem, j)
  }

  ghost predicate WeightAt(w: Weights, mem: Block, j: nat) {
    j < |w| && At(w, j) + |w[j]| <= |mem| && Window(mem, At(w, j), |w[j]|) == w[j]
  }

  lemma {:induction false} Before(w: Weights, j: nat, k: nat)
    requires j < k <= |w|
    ensures At(w, j) + |w[j]| <= At(w, k)
  {
    AtMono(w, j + 1, k);
  }

  lemma {:induction false} WeightStays(w: Weights, mem: Block, at: nat, b: Block, j: nat)
    requires WeightAt(w, mem, j) && at + |b| <= |mem| && At(w, j) + |w[j]| <= at
    ensures WeightAt(w, Blit(mem, at, b), j)
  {
    var lo, n := At(w, j), |w[j]|;
    BlitWindow(mem, at, b);
    assert Disjoint(at, |b|, lo, n);
    assert Window(Blit(mem, at, b), lo, n) == Window(mem, lo, n);
  }

  lemma {:induction false} FillNext(w: Weights, mem: Block, k: nat)
    requires Filled(w, mem, k) && k < |w| && At(w, |w|) <= |mem|
    ensures At(w, k) + |w[k]| <= |mem|
    ensures Filled(w, Blit(mem, At(w, k), w[k]), k + 1)
  {
    Before(w, k, |w|);
    var m := Blit(mem, At(w, k), w[k]);
    assert WeightAt(w, m, k) by { BlitWindow(mem, At(w, k), w[k]); }
    forall j | 0 <= j < k ensures WeightAt(w, m, j) {
      assert WeightAt(w, mem, j);
      Before(w, j, k);
      WeightStays(w, mem, At(w, k), w[k], j);
    }
  }

  /** Load of layer il: nothing to do when it is resident or has no weights recorded. */
  function Begin(c: Config, bufs: seq<Buffer>, il: int): Load
    requires c.nbuf >= 1 && |bufs| == c.nbuf
  {
    if bufs[Buf(c, il)].resident == il || il !in c.layers then NoLoad else Load(il, 0)
  }

  /** The kick of the next layer. */
  function Kick(c: Config, bufs: seq<Buffer>, il: int): Load
    requires c.nbuf >= 1 && |bufs| == c.nbuf
  {
    if c.nbuf < 2 || c.first < 0 || il < c.first || il >= c.nlayer then NoLoad else Begin(c, bufs, il)
  }

  datatype Event = Enter(il: int) | ReadWeight(bg: bool) | Finish(bg: bool) | StartCompute | EndCompute

  function Of(s: St, bg: bool): Load { if bg then s.bg else s.fg }

  ghost predicate Enabled(c: Config, s: St, ev: Event) {
    && ConfigOk(c) && |s.bufs| == c.nbuf
    && match ev
       case Enter(il) => s.graph == Between && s.bg == NoLoad && il in c.layers
       case ReadWeight(bg) => Of(s, bg).Load? && Of(s, bg).il in c.layers && Of(s, bg).k < |c.layers[Of(s, bg).il]|
         && At(c.layers[Of(s, bg).il], Of(s, bg).k) + |c.layers[Of(s, bg).il][Of(s, bg).k]| <= |s.bufs[Buf(c, Of(s, bg).il)].mem|
       case Finish(bg) => Of(s, bg).Load? && Of(s, bg).il in c.layers && Of(s, bg).k == |c.layers[Of(s, bg).il]|
       case StartCompute => s.graph.Filling? && s.fg == NoLoad
       case EndCompute => s.graph.Computing?
  }

  function SetLoad(s: St, bg: bool, l: Load): St { if bg then s.(bg := l) else s.(fg := l) }

  ghost function Step(c: Config, s: St, ev: Event): St
    requires Enabled(c, s, ev)
  {
    match ev
    case Enter(il) => s.(fg := Begin(c, s.bufs, il), graph := Filling(il))
    case ReadWeight(bg) =>
      var l := Of(s, bg);
      var w := c.layers[l.il];
      var b := s.bufs[Buf(c, l.il)];
      SetLoad(s.(bufs := s.bufs[Buf(c, l.il) := b.(mem := Blit(b.mem, At(w, l.k), w[l.k]))]), bg, Load(l.il, l.k + 1))
    case Finish(bg) =>
      var l := Of(s, bg);
      SetLoad(s.(bufs := s.bufs[Buf(c, l.il) := s.bufs[Buf(c, l.il)].(resident := l.il)]), bg, NoLoad)
    case StartCompute => s.(bg := Kick(c, s.bufs, s.graph.il + 1), graph := Computing(s.graph.il))
    case EndCompute => s.(graph := Between)
  }

  ghost predicate LoadOk(c: Config, s: St, l: Load)
    requires c.nbuf >= 1 && |s.bufs| == c.nbuf
  {
    l.Load? ==> l.il in c.layers && Filled(c.layers[l.il], s.bufs[Buf(c, l.il)].mem, l.k)
  }

  ghost predicate Loading(c: Config, s: St, b: nat)
    requires c.nbuf >= 1
  {
    (s.bg.Load? && Buf(c, s.bg.il) == b) || (s.fg.Load? && Buf(c, s.fg.il) == b)
  }

  /** A buffer no load is writing holds all of the layer it is recorded to hold. */
  ghost predicate BufOk(c: Config, s: St, b: nat)
    requires c.nbuf >= 1 && b < |s.bufs|
  {
    && |s.bufs[b].mem| == c.size
    && (s.bufs[b].resident in c.layers && !Loading(c, s, b) ==>
          Filled(c.layers[s.bufs[b].resident], s.bufs[b].mem, |c.layers[s.bufs[b].resident]|))
  }

  ghost predicate GraphOk(c: Config, s: St)
    requires c.nbuf >= 1 && |s.bufs| == c.nbuf
  {
    match s.graph
    case Between => s.fg == NoLoad
    case Filling(il) =>
      && s.bg == NoLoad && il in c.layers
      && (if s.fg.Load? then s.fg.il == il else s.bufs[Buf(c, il)].resident == il)
    case Computing(il) =>
      && s.fg == NoLoad && il in c.layers && s.bufs[Buf(c, il)].resident == il
      && (s.bg.Load? ==> Buf(c, s.bg.il) != Buf(c, il))
  }

  ghost predicate Inv(c: Config, s: St) {
    && ConfigOk(c) && |s.bufs| == c.nbuf
    && (forall b :: 0 <= b < c.nbuf ==> BufOk(c, s, b))
    && LoadOk(c, s, s.bg) && LoadOk(c, s, s.fg)
    && (s.bg == NoLoad || s.fg == NoLoad)
    && GraphOk(c, s)
  }

  lemma ReadKeeps(c: Config, s: St, bg: bool)
    requires Inv(c, s) && Enabled(c, s, ReadWeight(bg))
    ensures Inv(c, Step(c, s, ReadWeight(bg)))
  {
    var l := Of(s, bg);
    var t := Step(c, s, ReadWeight(bg));
    assert BufOk(c, s, Buf(c, l.il));
    FillNext(c.layers[l.il], s.bufs[Buf(c, l.il)].mem, l.k);
    forall b | 0 <= b < c.nbuf ensures BufOk(c, t, b) { assert BufOk(c, s, b); }
  }

  lemma FinishKeeps(c: Config, s: St, bg: bool)
    requires Inv(c, s) && Enabled(c, s, Finish(bg))
    ensures Inv(c, Step(c, s, Finish(bg)))
  {
    var t := Step(c, s, Finish(bg));
    forall b | 0 <= b < c.nbuf ensures BufOk(c, t, b) { assert BufOk(c, s, b); }
  }

  lemma EnterKeeps(c: Config, s: St, il: int)
    requires Inv(c, s) && Enabled(c, s, Enter(il))
    ensures Inv(c, Step(c, s, Enter(il)))
  {
    var t := Step(c, s, Enter(il));
    assert BufOk(c, s, Buf(c, il));
    forall b | 0 <= b < c.nbuf ensures BufOk(c, t, b) { assert BufOk(c, s, b); }
  }

  lemma StartKeeps(c: Config, s: St)
    requires Inv(c, s) && Enabled(c, s, StartCompute)
    ensures Inv(c, Step(c, s, StartCompute))
  {
    var t := Step(c, s, StartCompute);
    var il := s.graph.il;
    assert BufOk(c, s, Buf(c, il + 1));
    if c.nbuf >= 2 { NextDiffers(il, c.nbuf); }
    forall b | 0 <= b < c.nbuf ensures BufOk(c, t, b) { assert BufOk(c, s, b); }
  }

  /** Every step keeps the invariant. */
  lemma StepKeeps(c: Config, s: St, ev: Event)
    requires Inv(c, s) && Enabled(c, s, ev)
    ensures Inv(c, Step(c, s, ev))
  {
    match ev
    case Enter(il) => EnterKeeps(c, s, il);
    case ReadWeight(bg) => ReadKeeps(c, s, bg);
    case Finish(bg) => FinishKeeps(c, s, bg);
    case StartCompute => StartKeeps(c, s);
    case EndCompute =>
      var t := Step(c, s, EndCompute);
      forall b | 0 <= b < c.nbuf ensures BufOk(c, t, b) { assert BufOk(c, s, b); }
  }

  /** While a layer is computed on, its buffer holds all of its weights. */
  lemma ComputeSafe(c: Config, s: St, j: nat)
    requires Inv(c, s) && s.graph.Computing?
    ensures s.graph.il in c.layers
    ensures j < |c.layers[s.graph.il]| ==> WeightAt(c.layers[s.graph.il], s.bufs[Buf(c, s.graph.il)].mem, j)
  {
    assert BufOk(c, s, Buf(c, s.graph.il));
  }

  /** Nothing that happens meanwhile touches that buffer. */
  lemma ComputeUndisturbed(c: Config, s: St, ev: Event)
    requires Inv(c, s) && s.graph.Computing? && Enabled(c, s, ev)
    ensures Step(c, s, ev).bufs[Buf(c, s.graph.il)] == s.bufs[Buf(c, s.graph.il)]
  {
  }

  /** After a join, a buffer recorded to hold a layer holds exactly that layer's bytes. */
  lemma JoinRight(c: Config, s: St, b: nat, j: nat)
    requires Inv(c, s) && s.graph == Between && s.bg == NoLoad && b < c.nbuf && s.bufs[b].resident in c.layers
    ensures j < |c.layers[s.bufs[b].resident]| ==> WeightAt(c.layers[s.bufs[b].resident], s.bufs[b].mem, j)
  {
    assert BufOk(c, s, b);
  }

  /** No load waits: each can read its next weight, or finish. And once the load op's own load
      is over, compute can start. */
  lemma LoadsProceed(c: Config, s: St, bg: bool)
    requires Inv(c, s) && Of(s, bg).Load?
    ensures Enabled(c, s, ReadWeight(bg)) || Enabled(c, s, Finish(bg))
  {
    var l := Of(s, bg);
    assert BufOk(c, s, Buf(c, l.il));
    if l.k < |c.layers[l.il]| { FillNext(c.layers[l.il], s.bufs[Buf(c, l.il)].mem, l.k); }
  }

  /** Compute starts with a background load of the next layer exactly if there is a second buffer,
      that layer is streamed and recorded, and its buffer does not hold it. */
  lemma {:induction false} KickStarts(c: Config, s: St)
    requires Enabled(c, s, StartCompute)
    ensures var il := s.graph.il + 1;
      Step(c, s, StartCompute).bg ==
        if c.nbuf >= 2 && 0 <= c.first <= il < c.nlayer && il in c.layers && s.bufs[il % c.nbuf].resident != il
        then Load(il, 0) else NoLoad
  {
  }

  /** A prefetch pays: a load op reads its layer exactly if the buffer is not recorded to hold it. */
  lemma {:induction false} PrefetchPays(c: Config, s: St, il: int)
    requires Enabled(c, s, Enter(il))
    ensures Step(c, s, Enter(il)).fg == if s.bufs[il % c.nbuf].resident == il then NoLoad else Load(il, 0)
    ensures Step(c, s, Enter(il)).bufs == s.bufs
  {
  }

  /** A finished load, of either side, records its layer, and nothing else does. */
  lemma {:induction false} FinishRecords(c: Config, s: St, ev: Event, b: nat)
    requires Enabled(c, s, ev) && b < c.nbuf
    ensures Step(c, s, ev).bufs[b].resident ==
      if ev.Finish? && b == Of(s, ev.bg).il % c.nbuf then Of(s, ev.bg).il else s.bufs[b].resident
  {
  }

  ghost predicate Init(c: Config, s: St) {
    && s.bg == NoLoad && s.fg == NoLoad && s.graph == Between && |s.bufs| == c.nbuf
    && forall b :: 0 <= b < c.nbuf ==> |s.bufs[b].mem| == c.size && s.bufs[b].resident == -1
  }

  ghost predicate IsRun(c: Config, run: seq<St>, evs: seq<Event>) {
    && ConfigOk(c) && |run| == |evs| + 1
    && forall i :: 0 <= i < |evs| ==> Enabled(c, run[i], evs[i]) && run[i + 1] == Step(c, run[i], evs[i])
  }

  lemma {:induction false} RunInv(c: Config, run: seq<St>, evs: seq<Event>, k: nat)
    requires IsRun(c, run, evs) && Init(c, run[0]) && k < |run|
    ensures Inv(c, run[k])
  {
    if k > 0 {
      RunInv(c, run, evs, k - 1);
      StepKeeps(c, run[k - 1], evs[k - 1]);
    }
  }

  /** Over whole runs: whenever a layer is computed on, all its weights are in place. */
  lemma RunSafe(c: Config, run: seq<St>, evs: seq<Event>, k: nat, j: nat)
    requires IsRun(c, run, evs) && Init(c, run[0]) && k < |run| && run[k].graph.Computing?
    ensures c.nbuf >= 1 && |run[k].bufs| == c.nbuf && run[k].graph.il in c.layers
    ensures j < |c.layers[run[k].graph.il]| ==>
      WeightAt(c.layers[run[k].graph.il], run[k].bufs[Buf(c, run[k].graph.il)].mem, j)
  {
    RunInv(c, run, evs, k);
    ComputeSafe(c, run[k], j);
  }
}
