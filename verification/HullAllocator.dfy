/** How the report divides the slots among the layers: hull per layer, segments of all layers
    sorted by slope, spent greedily. The result is worth at least as much as every integer
    allocation of the same budget. */
module HullAllocator {
  import opened ConcaveHull
  import opened HullSegments
  import opened HullGreedy

  /** Hits of a layer with c slots, from its histogram of reuse distances. */
  function Cumulative(h: seq<nat>, c: nat): nat
    requires c <= |h|
  {
    if c == 0 then 0 else Cumulative(h, c - 1) + h[c - 1]
  }

  /** V is the layer's cumulative curve. */
  predicate Curve(V: seq<real>, h: seq<nat>) {
    |V| == |h| + 1 && forall c :: 0 <= c <= |h| ==> V[c] == Cumulative(h, c) as real
  }

  /** One slot count per layer, no larger than the layer's histogram. */
  predicate Allocation(c: seq<nat>, hists: seq<seq<nat>>) {
    |c| == |hists| && forall l :: 0 <= l < |c| ==> c[l] <= |hists[l]|
  }

  /** Hits of all layers under an allocation. */
  function Hits(hists: seq<seq<nat>>, c: seq<nat>): nat
    requires Allocation(c, hists)
  {
    if |c| == 0 then 0
    else
      var n := |c| - 1;
      Hits(hists[..n], c[..n]) + Cumulative(hists[n], c[n])
  }

  /** Every layer's curve and its hull. */
  datatype Layer = Layer(V: seq<real>, hull: seq<nat>)

  predicate Fits(y: Layer, h: seq<nat>) {
    Curve(y.V, h) && Hull(y.V, y.hull) && Last(y.hull) == |h|
  }

  predicate AllFit(layers: seq<Layer>, hists: seq<seq<nat>>) {
    |layers| == |hists| && forall l :: 0 <= l < |layers| ==> Fits(layers[l], hists[l])
  }

  /** The layers' hulls at an allocation. */
  function HullSum(layers: seq<Layer>, hists: seq<seq<nat>>, c: seq<nat>): real
    requires AllFit(layers, hists) && Allocation(c, hists)
  {
    if |c| == 0 then 0.0
    else
      var n := |c| - 1;
      HullSum(layers[..n], hists[..n], c[..n]) + HullAt(layers[n].V, layers[n].hull, c[n])
  }

  /** The segments of all layers. */
  function AllSegments(layers: seq<Layer>, hists: seq<seq<nat>>): seq<Segment>
    requires AllFit(layers, hists)
  {
    if |layers| == 0 then []
    else
      var n := |layers| - 1;
      AllSegments(layers[..n], hists[..n]) + Segments(layers[n].V, layers[n].hull, n)
  }

  // ---------------------------------------------------------------------------
  // Curves
  // ---------------------------------------------------------------------------

  lemma {:induction false} CumulativeRises(h: seq<nat>, i: nat, j: nat)
    requires i <= j <= |h|
    ensures Cumulative(h, i) <= Cumulative(h, j)
  {
    if i < j { CumulativeRises(h, i, j - 1); }
  }

  lemma {:induction false} CurveRises(V: seq<real>, h: seq<nat>)
    requires Curve(V, h)
    ensures Rising(V) && V[0] == 0.0
  {
    forall i, j | 0 <= i <= j < |V| ensures V[i] <= V[j] { CumulativeRises(h, i, j); }
  }

  method BuildCurve(h: seq<nat>) returns (V: seq<real>)
    ensures Curve(V, h)
  {
    V := [0.0];
    var c := 0;
    while c < |h|
      invariant 0 <= c <= |h| && |V| == c + 1
      invariant forall k :: 0 <= k <= c ==> V[k] == Cumulative(h, k) as real
    {
      V := V + [V[c] + h[c] as real];
      c := c + 1;
    }
  }

  // ---------------------------------------------------------------------------
  // All layers
  // ---------------------------------------------------------------------------

  lemma {:induction false} SegmentsUsable(layers: seq<Layer>, hists: seq<seq<nat>>)
    requires AllFit(layers, hists)
    ensures Usable(AllSegments(layers, hists), |layers|)
  {
    if |layers| > 0 {
      var n := |layers| - 1;
      SegmentsUsable(layers[..n], hists[..n]);
      SegmentsOwn(layers[n].V, layers[n].hull, n);
    }
  }

  /** Any permutation of usable segments is usable. */
  lemma {:induction false} UsablePermuted(a: seq<Segment>, b: seq<Segment>, nLayer: nat)
    requires Usable(a, nLayer) && multiset(a) == multiset(b)
    ensures Usable(b, nLayer)
  {
    forall i | 0 <= i < |b| ensures b[i].layer < nLayer && b[i].slope > 0.0 {
      assert b[i] in multiset(a);
    }
  }

  /** The hull sum is nowhere below the hits. */
  lemma {:induction false} HullSumAbove(layers: seq<Layer>, hists: seq<seq<nat>>, c: seq<nat>)
    requires AllFit(layers, hists) && Allocation(c, hists)
    ensures Hits(hists, c) as real <= HullSum(layers, hists, c)
  {
    if |c| > 0 {
      var n := |c| - 1;
      HullSumAbove(layers[..n], hists[..n], c[..n]);
      assert Fits(layers[n], hists[n]);
      Majorant(layers[n].V, layers[n].hull, c[n]);
    }
  }

  /** One layer at a price. */
  lemma {:induction false} OneLayerBound(y: Layer, h: seq<nat>, l: nat, x: nat, price: real)
    requires Fits(y, h) && x <= |h| && price >= 0.0
    ensures HullAt(y.V, y.hull, x) <= Worth(price, x) + Total(Segments(y.V, y.hull, l), Gain(price))
  {
    LayerBound(y.V, y.hull, x, price);
    CurveRises(y.V, h);
    SegmentsTotal(y.V, y.hull, l, price);
  }

  /** At any price, an allocation is worth at most its cost plus the gain of all segments. */
  lemma {:induction false} HullSumBound(layers: seq<Layer>, hists: seq<seq<nat>>, c: seq<nat>, price: real)
    requires AllFit(layers, hists) && Allocation(c, hists) && price >= 0.0
    ensures HullSum(layers, hists, c) <= Worth(price, Slots(c)) + Total(AllSegments(layers, hists), Gain(price))
  {
    if |c| > 0 {
      var n := |c| - 1;
      var y := layers[n];
      HullSumBound(layers[..n], hists[..n], c[..n], price);
      assert Fits(y, hists[n]);
      OneLayerBound(y, hists[n], n, c[n], price);
      TotalAppend(AllSegments(layers[..n], hists[..n]), Segments(y.V, y.hull, n), Gain(price));
      WorthSplit(price, Slots(c[..n]), c[n]);
    }
  }

  /** The part of the total that belongs to one layer. */
  lemma {:induction false} LayerPart(layers: seq<Layer>, hists: seq<seq<nat>>, l: nat, price: real)
    requires AllFit(layers, hists) && price >= 0.0
    ensures var t := Total(AllSegments(layers, hists), LayerGain(l, price));
      t == (if l < |layers| then HullGain(layers[l].V, layers[l].hull, price) else 0.0)
  {
    if |layers| > 0 {
      var n := |layers| - 1;
      var y := layers[n];
      LayerPart(layers[..n], hists[..n], l, price);
      assert Fits(y, hists[n]);
      SegmentsOwn(y.V, y.hull, n);
      OwnTotal(Segments(y.V, y.hull, n), n, l, price);
      SegmentsTotal(y.V, y.hull, n, price);
      TotalAppend(AllSegments(layers[..n], hists[..n]), Segments(y.V, y.hull, n), LayerGain(l, price));
    }
  }

  lemma {:induction false} LayerWidth(layers: seq<Layer>, hists: seq<seq<nat>>, l: nat)
    requires AllFit(layers, hists)
    ensures var t := Total(AllSegments(layers, hists), Width(l));
      if l < |layers| then t <= |hists[l]| as real else t == 0.0
  {
    if |layers| > 0 {
      var n := |layers| - 1;
      var y := layers[n];
      LayerWidth(layers[..n], hists[..n], l);
      assert Fits(y, hists[n]);
      SegmentsOwn(y.V, y.hull, n);
      OwnTotal(Segments(y.V, y.hull, n), n, l, 0.0);
      SegmentsWidth(y.V, y.hull, n);
      TotalAppend(AllSegments(layers[..n], hists[..n]), Segments(y.V, y.hull, n), Width(l));
    }
  }

  // ---------------------------------------------------------------------------
  // The greedy result
  // ---------------------------------------------------------------------------

  /** The greedy result is an allocation, and no layer got more than its hull gives. */
  lemma {:induction false} SharesFit(layers: seq<Layer>, hists: seq<seq<nat>>, sorted: seq<Segment>, cur: seq<nat>,
                                     per: seq<real>)
    requires AllFit(layers, hists) && |cur| == |per| == |layers|
    requires multiset(sorted) == multiset(AllSegments(layers, hists)) && Shares(sorted, cur, per)
    ensures Allocation(cur, hists)
    ensures forall l :: 0 <= l < |cur| ==> per[l] <= HullAt(layers[l].V, layers[l].hull, cur[l])
  {
    forall l | 0 <= l < |cur|
      ensures cur[l] <= |hists[l]| && per[l] <= HullAt(layers[l].V, layers[l].hull, cur[l])
    {
      var y := layers[l];
      assert Share(sorted, l, cur[l], per[l]) && Fits(y, hists[l]);
      TotalPermuted(sorted, AllSegments(layers, hists), Width(l));
      LayerWidth(layers, hists, l);
      CurveRises(y.V, hists[l]);
      var price := LayerTight(y.V, y.hull, cur[l]);
      TotalPermuted(sorted, AllSegments(layers, hists), LayerGain(l, price));
      LayerPart(layers, hists, l, price);
    }
  }

  lemma {:induction false} PerBelow(layers: seq<Layer>, hists: seq<seq<nat>>, cur: seq<nat>, per: seq<real>)
    requires AllFit(layers, hists) && Allocation(cur, hists) && |per| == |cur|
    requires forall l :: 0 <= l < |cur| ==> per[l] <= HullAt(layers[l].V, layers[l].hull, cur[l])
    ensures SumReal(per) <= HullSum(layers, hists, cur)
  {
    if |cur| > 0 {
      var n := |cur| - 1;
      PerBelow(layers[..n], hists[..n], cur[..n], per[..n]);
    }
  }

  /** A price at which the result is cost plus gain bounds every allocation within the budget. */
  lemma {:induction false} PriceBounds(layers: seq<Layer>, hists: seq<seq<nat>>, sorted: seq<Segment>, budget: nat,
                                       hit: real, price: real, c: seq<nat>)
    requires AllFit(layers, hists) && multiset(sorted) == multiset(AllSegments(layers, hists))
    requires price >= 0.0 && hit == Worth(price, budget) + Total(sorted, Gain(price))
    requires Allocation(c, hists) && Slots(c) <= budget
    ensures Hits(hists, c) as real <= HullSum(layers, hists, c) <= hit
  {
    HullSumAbove(layers, hists, c);
    HullSumBound(layers, hists, c, price);
    TotalPermuted(sorted, AllSegments(layers, hists), Gain(price));
    WorthMore(price, Slots(c), budget);
  }

  /** Curves, hulls and segments of all layers. */
  method BuildLayers(hists: seq<seq<nat>>) returns (layers: seq<Layer>)
    ensures AllFit(layers, hists)
  {
    layers := [];
    var l := 0;
    while l < |hists|
      invariant 0 <= l <= |hists| && AllFit(layers, hists[..l])
    {
      var V := BuildCurve(hists[l]);
      var hull := BuildHull(V);
      layers := layers + [Layer(V, hull)];
      l := l + 1;
    }
    assert hists[..l] == hists;
  }

  method CollectSegments(layers: seq<Layer>, hists: seq<seq<nat>>) returns (segs: seq<Segment>)
    requires AllFit(layers, hists)
    ensures segs == AllSegments(layers, hists)
  {
    segs := [];
    var l := 0;
    assert layers[..0] == [] && hists[..0] == [];
    while l < |layers|
      invariant 0 <= l <= |layers| && segs == AllSegments(layers[..l], hists[..l])
    {
      assert Fits(layers[l], hists[l]);
      assert layers[..l + 1][..l] == layers[..l] && hists[..l + 1][..l] == hists[..l];
      var own := CollectChords(layers[l].V, layers[l].hull, l);
      segs := segs + own;
      l := l + 1;
    }
    assert layers[..l] == layers && hists[..l] == hists;
  }

  method CollectChords(V: seq<real>, hull: seq<nat>, l: nat) returns (segs: seq<Segment>)
    requires Knots(V, hull)
    ensures segs == Segments(V, hull, l)
  {
    segs := [];
    var k := 1;
    KnotsPrefix(V, hull, 1);
    while k < |hull|
      invariant 1 <= k <= |hull| && Knots(V, hull[..k]) && segs == Segments(V, hull[..k], l)
    {
      KnotsPrefix(V, hull, k + 1);
      assert hull[..k + 1][..k] == hull[..k];
      var a, b := hull[k - 1], hull[k];
      var sl := Slope(V, a, b);
      if sl > 0.0 { segs := segs + [Segment(sl, b - a, l)]; }
      k := k + 1;
    }
    assert hull[..k] == hull;
  }

  lemma {:induction false} KnotsPrefix(V: seq<real>, hull: seq<nat>, k: nat)
    requires Knots(V, hull) && 1 <= k <= |hull|
    ensures Knots(V, hull[..k])
  {
    if k < |hull| {
      var m := |hull| - 1;
      KnotsPrefix(V, hull[..m], k);
      assert hull[..m][..k] == hull[..k];
    } else {
      assert hull[..k] == hull;
    }
  }

  /** The reported optimum: no integer allocation within the budget hits more often, and it
      is exactly what the layers' hulls give at the division found. */
  method Allocate(hists: seq<seq<nat>>, slots: nat)
    returns (hitOpt: real, cur: seq<nat>, layers: seq<Layer>)
    ensures AllFit(layers, hists)
    ensures Allocation(cur, hists) && Slots(cur) <= slots * |hists|
    ensures hitOpt == HullSum(layers, hists, cur)
    ensures forall c :: Allocation(c, hists) && Slots(c) <= slots * |hists| ==> Hits(hists, c) as real <= hitOpt
  {
    layers := BuildLayers(hists);
    var segs := CollectSegments(layers, hists);
    var sorted := SortSegments(segs);
    SegmentsUsable(layers, hists);
    UsablePermuted(segs, sorted, |layers|);
    var budget := slots * |hists|;
    ghost var per, price;
    hitOpt, cur, per, price := Spend(sorted, |layers|, budget);
    SharesFit(layers, hists, sorted, cur, per);
    PerBelow(layers, hists, cur, per);
    PriceBounds(layers, hists, sorted, budget, hitOpt, price, cur);
    forall c | Allocation(c, hists) && Slots(c) <= budget ensures Hits(hists, c) as real <= hitOpt {
      PriceBounds(layers, hists, sorted, budget, hitOpt, price, c);
    }
  }

  /** The even split every layer uses today. */
  function Even(hists: seq<seq<nat>>, slots: nat): (c: seq<nat>)
    ensures Allocation(c, hists)
  {
    seq(|hists|, l requires 0 <= l < |hists| => if slots < |hists[l]| then slots else |hists[l]|)
  }

  lemma {:induction false} SlotsBelow(c: seq<nat>, slots: nat)
    requires forall l :: 0 <= l < |c| ==> c[l] <= slots
    ensures Slots(c) <= slots * |c|
  {
    if |c| > 0 {
      SlotsBelow(c[..|c| - 1], slots);
      assert slots * |c| == slots * (|c| - 1) + slots;
    }
  }

  /** The even split is one of the allocations within the budget. */
  lemma {:induction false} EvenIsAffordable(hists: seq<seq<nat>>, slots: nat)
    ensures Slots(Even(hists, slots)) <= slots * |hists|
  {
    SlotsBelow(Even(hists, slots), slots);
  }

  /** The comparison the report prints: the optimum is never below the even split. */
  method CompareWithEven(hists: seq<seq<nat>>, slots: nat) returns (hitUniform: nat, hitOpt: real)
    ensures hitUniform == Hits(hists, Even(hists, slots))
    ensures hitUniform as real <= hitOpt
  {
    hitUniform := 0;
    var l := 0;
    assert hists[..0] == [] && Even(hists, slots)[..0] == [];
    while l < |hists|
      invariant 0 <= l <= |hists|
      invariant Allocation(Even(hists, slots)[..l], hists[..l])
      invariant hitUniform == Hits(hists[..l], Even(hists, slots)[..l])
    {
      var c := 0;
      while c < slots && c < |hists[l]|
        invariant 0 <= c <= |hists[l]| && c <= slots
        invariant hitUniform == Hits(hists[..l], Even(hists, slots)[..l]) + Cumulative(hists[l], c)
      {
        hitUniform := hitUniform + hists[l][c];
        c := c + 1;
      }
      assert hists[..l + 1][..l] == hists[..l] && Even(hists, slots)[..l + 1][..l] == Even(hists, slots)[..l];
      l := l + 1;
    }
    assert hists[..l] == hists && Even(hists, slots)[..l] == Even(hists, slots);
    EvenIsAffordable(hists, slots);
    var cur, layers;
    hitOpt, cur, layers := Allocate(hists, slots);
  }
}
