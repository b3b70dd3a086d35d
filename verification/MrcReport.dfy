/** The allocator fed with the recorder's histograms: its optimum bounds the LRU hits, on the
    recorded accesses, of every division of the slots among the layers. */
module MrcReport {
  import opened Seqs
  import opened StackDistance
  import opened MissRatioCurve
  import HullAllocator
  import HullGreedy

  /** LRU hits when layer l has c[l] slots. */
  function LruHits(acc: seq<Access>, c: seq<nat>): nat {
    if |c| == 0 then 0
    else
      var n := |c| - 1;
      LruHits(acc, c[..n]) + Hits(OfLayer(acc, n), c[n])
  }

  lemma {:induction false} CumulativeIsSum(h: seq<nat>, c: nat)
    requires c <= |h|
    ensures HullAllocator.Cumulative(h, c) == Sum(h[..c])
  {
    if c > 0 {
      CumulativeIsSum(h, c - 1);
      assert h[..c][..c - 1] == h[..c - 1];
    }
  }

  /** A layer's cumulative curve is its LRU hit count. */
  lemma {:induction false} CurveIsLru(acc: seq<Access>, l: nat, nExpert: nat, c: nat)
    requires c <= nExpert
    ensures HullAllocator.Cumulative(Histogram(OfLayer(acc, l), nExpert), c) == Hits(OfLayer(acc, l), c)
  {
    var h := Histogram(OfLayer(acc, l), nExpert);
    CumulativeIsSum(h, c);
    assert h[..c] == Histogram(OfLayer(acc, l), c);
    HistogramIsHits(OfLayer(acc, l), c);
  }

  lemma {:induction false} HitsAreLru(hists: seq<seq<nat>>, acc: seq<Access>, nExpert: nat, c: seq<nat>)
    requires HullAllocator.Allocation(c, hists)
    requires forall l :: 0 <= l < |hists| ==> hists[l] == Histogram(OfLayer(acc, l), nExpert)
    ensures HullAllocator.Hits(hists, c) == LruHits(acc, c)
  {
    if |c| > 0 {
      var n := |c| - 1;
      HitsAreLru(hists[..n], acc, nExpert, c[..n]);
      CurveIsLru(acc, n, nExpert, c[n]);
    }
  }

  /** One slot count per layer, at most one slot per expert, within the memory of an even split. */
  predicate Affordable(c: seq<nat>, nLayer: nat, nExpert: nat, slots: nat) {
    && |c| == nLayer && (forall l :: 0 <= l < |c| ==> c[l] <= nExpert)
    && HullGreedy.Slots(c) <= slots * nLayer
  }

  /** More slots than experts are worth no more. */
  lemma {:induction false} EnoughSlots(acc: seq<Access>, nExpert: nat, c: nat)
    requires c >= nExpert && forall i :: 0 <= i < |acc| ==> acc[i].e < nExpert
    ensures Hits(acc, c) == Hits(acc, nExpert)
  {
    ColdAndHits(acc, c);
    ColdAndHits(acc, nExpert);
  }

  lemma {:induction false} LayerInRange(acc: seq<Access>, l: nat, nExpert: nat)
    requires forall i :: 0 <= i < |acc| ==> acc[i].e < nExpert
    ensures forall i :: 0 <= i < |OfLayer(acc, l)| ==> OfLayer(acc, l)[i].e < nExpert
  {
    if |acc| > 0 { LayerInRange(acc[..|acc| - 1], l, nExpert); }
  }

  lemma {:induction false} EvenIsLru(hists: seq<seq<nat>>, acc: seq<Access>, nExpert: nat, slots: nat)
    requires forall l :: 0 <= l < |hists| ==> hists[l] == Histogram(OfLayer(acc, l), nExpert)
    requires forall i :: 0 <= i < |acc| ==> acc[i].e < nExpert
    ensures HullAllocator.Hits(hists, HullAllocator.Even(hists, slots)) == LruHits(acc, seq(|hists|, _ => slots))
  {
    if |hists| > 0 {
      var n := |hists| - 1;
      var c := HullAllocator.Even(hists, slots)[n];
      EvenIsLru(hists[..n], acc, nExpert, slots);
      assert HullAllocator.Even(hists, slots)[..n] == HullAllocator.Even(hists[..n], slots);
      assert seq(|hists|, _ => slots)[..n] == seq(n, _ => slots);
      CurveIsLru(acc, n, nExpert, c);
      LayerInRange(acc, n, nExpert);
      if slots >= nExpert { EnoughSlots(OfLayer(acc, n), nExpert, slots); }
    }
  }

  /** What the report compares: the LRU hits with `slots` slots in every layer, and an optimum
      that no division of the same memory exceeds. */
  method Compare(mrc: MrcRecorder, slots: nat) returns (hitUniform: nat, hitOpt: real)
    requires mrc.Valid()
    ensures hitUniform == LruHits(mrc.acc, seq(mrc.nLayer, _ => slots))
    ensures hitUniform as real <= hitOpt
  {
    hitUniform, hitOpt := HullAllocator.CompareWithEven(mrc.histL, slots);
    EvenIsLru(mrc.histL, mrc.acc, mrc.nExpert, slots);
  }

  /** No division of the same memory would have hit more often. */
  method Optimum(mrc: MrcRecorder, slots: nat) returns (hitOpt: real)
    requires mrc.Valid()
    ensures forall c :: Affordable(c, mrc.nLayer, mrc.nExpert, slots) ==> LruHits(mrc.acc, c) as real <= hitOpt
  {
    ghost var acc, n := mrc.acc, mrc.nExpert;
    var hists := mrc.histL;
    var cur, layers;
    hitOpt, cur, layers := HullAllocator.Allocate(hists, slots);
    forall c | Affordable(c, mrc.nLayer, n, slots) ensures LruHits(acc, c) as real <= hitOpt {
      assert HullAllocator.Allocation(c, hists);
      HitsAreLru(hists, acc, n, c);
    }
  }
}
