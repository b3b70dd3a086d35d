/** Spending a budget of slots on segments, steepest first. */
module HullGreedy {
  import opened ConcaveHull
  import opened HullSegments

  /** What std::sort leaves: steepest first, equal slopes in any order. */
  predicate Descending(segs: seq<Segment>) {
    forall i, j :: 0 <= i < j < |segs| ==> segs[i].slope >= segs[j].slope
  }

  /** Segments of the given layers, each bringing something. */
  predicate Usable(segs: seq<Segment>, nLayer: nat) {
    forall i :: 0 <= i < |segs| ==> segs[i].layer < nLayer && segs[i].slope > 0.0
  }

  function Count(segs: seq<Segment>): nat {
    if |segs| == 0 then 0 else Count(segs[..|segs| - 1]) + segs[|segs| - 1].n
  }

  function Slots(cur: seq<nat>): nat {
    if |cur| == 0 then 0 else Slots(cur[..|cur| - 1]) + cur[|cur| - 1]
  }

  function SumReal(xs: seq<real>): real {
    if |xs| == 0 then 0.0 else SumReal(xs[..|xs| - 1]) + xs[|xs| - 1]
  }

  // ---------------------------------------------------------------------------
  // Sums
  // ---------------------------------------------------------------------------

  lemma {:induction false} SlotsUpdate(cur: seq<nat>, l: nat, take: nat)
    requires l < |cur|
    ensures Slots(cur[l := cur[l] + take]) == Slots(cur) + take
  {
    var n := |cur| - 1;
    if l == n {
      assert cur[l := cur[l] + take][..n] == cur[..n];
    } else {
      assert cur[l := cur[l] + take][..n] == cur[..n][l := cur[l] + take];
      SlotsUpdate(cur[..n], l, take);
    }
  }

  lemma {:induction false} SumUpdateReal(xs: seq<real>, l: nat, d: real)
    requires l < |xs|
    ensures SumReal(xs[l := xs[l] + d]) == SumReal(xs) + d
  {
    var n := |xs| - 1;
    if l == n {
      assert xs[l := xs[l] + d][..n] == xs[..n];
    } else {
      assert xs[l := xs[l] + d][..n] == xs[..n][l := xs[l] + d];
      SumUpdateReal(xs[..n], l, d);
    }
  }

  lemma {:induction false} ZeroSums(cur: seq<nat>, xs: seq<real>)
    requires |cur| == |xs| && forall l :: 0 <= l < |cur| ==> cur[l] == 0 && xs[l] == 0.0
    ensures Slots(cur) == 0 && SumReal(xs) == 0.0
  {
    if |cur| > 0 { ZeroSums(cur[..|cur| - 1], xs[..|cur| - 1]); }
  }

  /** No segment is steeper than the price. */
  lemma {:induction false} NoGain(segs: seq<Segment>, price: real)
    requires forall i :: 0 <= i < |segs| ==> segs[i].slope <= price
    ensures Total(segs, Gain(price)) == 0.0
  {
    if |segs| > 0 {
      NoGain(segs[..|segs| - 1], price);
      WorthZero(segs[|segs| - 1].n);
    }
  }

  /** Every segment is worth the price. */
  lemma {:induction false} AllGain(segs: seq<Segment>, price: real)
    requires price >= 0.0 && forall i :: 0 <= i < |segs| ==> segs[i].slope >= price
    ensures Total(segs, Gain(0.0)) == Worth(price, Count(segs)) + Total(segs, Gain(price))
  {
    if |segs| > 0 {
      var k := |segs| - 1;
      AllGain(segs[..k], price);
      WorthSplit(price, Count(segs[..k]), segs[k].n);
      WorthSum(price, segs[k].slope - price, segs[k].n);
    }
  }

  /** A nonnegative total only grows. */
  lemma {:induction false} TotalMore(segs: seq<Segment>, j: nat, f: Segment -> real)
    requires j <= |segs| && forall s: Segment :: f(s) >= 0.0
    ensures Total(segs[..j], f) <= Total(segs, f)
    decreases |segs|
  {
    if j < |segs| {
      var k := |segs| - 1;
      assert segs[..k][..j] == segs[..j];
      TotalMore(segs[..k], j, f);
    } else {
      assert segs[..j] == segs;
    }
  }

  lemma {:induction false} GainsNonNegative(l: nat, price: real)
    ensures forall s: Segment :: LayerGain(l, price)(s) >= 0.0
    ensures forall s: Segment :: Width(l)(s) >= 0.0
  {
    forall s: Segment ensures LayerGain(l, price)(s) >= 0.0 {
      WorthMore(Pos(s.slope - price), 0, s.n);
    }
  }

  lemma {:induction false} PrefixNext(segs: seq<Segment>, j: nat, f: Segment -> real)
    requires j < |segs|
    ensures Total(segs[..j + 1], f) == Total(segs[..j], f) + f(segs[j])
    ensures Count(segs[..j + 1]) == Count(segs[..j]) + segs[j].n
  {
    assert segs[..j + 1][..j] == segs[..j];
  }

  // ---------------------------------------------------------------------------
  // The greedy loop
  // ---------------------------------------------------------------------------

  /** A layer's share: per hits for cur slots, never more than the segments seen allow. */
  ghost predicate Share(segs: seq<Segment>, l: nat, cur: nat, per: real) {
    && cur as real <= Total(segs, Width(l))
    && forall p: real :: p >= 0.0 ==> per <= Worth(p, cur) + Total(segs, LayerGain(l, p))
  }

  ghost predicate Shares(segs: seq<Segment>, cur: seq<nat>, per: seq<real>)
    requires |cur| == |per|
  {
    forall l :: 0 <= l < |cur| ==> Share(segs, l, cur[l], per[l])
  }

  /** The layer that takes a part of the next segment. */
  lemma {:induction false} ShareTake(segs: seq<Segment>, j: nat, cur: nat, per: real, take: nat)
    requires j < |segs| && take <= segs[j].n && Share(segs[..j], segs[j].layer, cur, per)
    ensures Share(segs[..j + 1], segs[j].layer, cur + take, per + Worth(segs[j].slope, take))
  {
    var s := segs[j];
    PrefixNext(segs, j, Width(s.layer));
    forall p: real | p >= 0.0
      ensures per + Worth(s.slope, take) <= Worth(p, cur + take) + Total(segs[..j + 1], LayerGain(s.layer, p))
    {
      PrefixNext(segs, j, LayerGain(s.layer, p));
      PosBound(s.slope, p, take, s.n);
      WorthSplit(p, cur, take);
    }
  }

  /** Any other layer. */
  lemma {:induction false} ShareKept(segs: seq<Segment>, j: nat, k: nat, l: nat, cur: nat, per: real)
    requires j <= k <= |segs| && Share(segs[..j], l, cur, per)
    ensures Share(segs[..k], l, cur, per)
  {
    assert segs[..k][..j] == segs[..j];
    GainsNonNegative(l, 0.0);
    TotalMore(segs[..k], j, Width(l));
    forall p: real | p >= 0.0
      ensures per <= Worth(p, cur) + Total(segs[..k], LayerGain(l, p))
    {
      GainsNonNegative(l, p);
      TotalMore(segs[..k], j, LayerGain(l, p));
    }
  }

  lemma {:induction false} SharesTake(segs: seq<Segment>, j: nat, cur: seq<nat>, per: seq<real>, take: nat)
    requires |cur| == |per| && j < |segs| && take <= segs[j].n && segs[j].layer < |cur|
    requires Shares(segs[..j], cur, per)
    ensures var l := segs[j].layer;
      Shares(segs[..j + 1], cur[l := cur[l] + take], per[l := per[l] + Worth(segs[j].slope, take)])
  {
    var l0 := segs[j].layer;
    var cur', per' := cur[l0 := cur[l0] + take], per[l0 := per[l0] + Worth(segs[j].slope, take)];
    forall l | 0 <= l < |cur| ensures Share(segs[..j + 1], l, cur'[l], per'[l]) {
      if l == l0 {
        ShareTake(segs, j, cur[l], per[l], take);
      } else {
        ShareKept(segs, j, j + 1, l, cur[l], per[l]);
      }
    }
  }

  lemma {:induction false} SharesAll(segs: seq<Segment>, j: nat, cur: seq<nat>, per: seq<real>)
    requires |cur| == |per| && j <= |segs| && Shares(segs[..j], cur, per)
    ensures Shares(segs, cur, per)
  {
    assert segs[..|segs|] == segs;
    forall l | 0 <= l < |cur| ensures Share(segs, l, cur[l], per[l]) {
      ShareKept(segs, j, |segs|, l, cur[l], per[l]);
    }
  }

  /** Either everything so far was taken whole, or the budget is spent at this price. */
  ghost predicate Progress(segs: seq<Segment>, j: nat, budget: nat, used: nat, hit: real, price: real) {
    && j <= |segs| && used <= budget && price >= 0.0
    && if used < budget then hit == Total(segs[..j], Gain(0.0)) && used == Count(segs[..j])
       else hit == Worth(price, budget) + Total(segs, Gain(price))
  }

  lemma {:induction false} Started(segs: seq<Segment>, nLayer: nat, budget: nat) returns (price: real)
    requires Descending(segs) && Usable(segs, nLayer)
    ensures Progress(segs, 0, budget, 0, 0.0, price)
  {
    price := if |segs| > 0 then segs[0].slope else 0.0;
    NoGain(segs, price);
  }

  /** The next segment is used up and the budget is not. */
  lemma {:induction false} TakenWhole(segs: seq<Segment>, j: nat, budget: nat, used: nat, hit: real, price: real)
    requires j < |segs| && segs[j].slope > 0.0 && used + segs[j].n < budget && Progress(segs, j, budget, used, hit, price)
    ensures Progress(segs, j + 1, budget, used + segs[j].n, hit + Worth(segs[j].slope, segs[j].n), price)
  {
    PrefixNext(segs, j, Gain(0.0));
  }

  /** All segments but the first j cost at least what they bring at segment j's price. */
  lemma {:induction false} GainOfFirst(segs: seq<Segment>, j: nat)
    requires Descending(segs) && j < |segs|
    ensures Total(segs, Gain(segs[j].slope)) == Total(segs[..j], Gain(segs[j].slope))
  {
    var p := segs[j].slope;
    NoGain(segs[j..], p);
    assert segs == segs[..j] + segs[j..];
    TotalAppend(segs[..j], segs[j..], Gain(p));
  }

  /** The budget runs out within the next segment: its slope is the price. */
  lemma {:induction false} TakenLast(segs: seq<Segment>, j: nat, budget: nat, used: nat, hit: real, price: real, take: nat)
    requires Descending(segs) && j < |segs| && segs[j].slope > 0.0 && used < budget && used + take == budget
    requires Progress(segs, j, budget, used, hit, price)
    ensures Progress(segs, j + 1, budget, budget, hit + Worth(segs[j].slope, take), segs[j].slope)
  {
    var p := segs[j].slope;
    AllGain(segs[..j], p);
    WorthSplit(p, used, take);
    GainOfFirst(segs, j);
  }

  /** Taking from the next segment, whole or up to the budget. */
  lemma {:induction false} Taken(segs: seq<Segment>, nLayer: nat, j: nat, budget: nat, used: nat, hit: real,
                                 price: real, take: nat) returns (next: real)
    requires Descending(segs) && Usable(segs, nLayer) && j < |segs| && used < budget
    requires Progress(segs, j, budget, used, hit, price)
    requires take == (if segs[j].n < budget - used then segs[j].n else budget - used)
    ensures Progress(segs, j + 1, budget, used + take, hit + Worth(segs[j].slope, take), next)
  {
    if used + take == budget {
      next := segs[j].slope;
      TakenLast(segs, j, budget, used, hit, price, take);
    } else {
      next := price;
      TakenWhole(segs, j, budget, used, hit, price);
    }
  }

  /** The loop's invariant: totals, per-layer shares, and the price argument. */
  ghost predicate Spending(segs: seq<Segment>, j: nat, budget: nat, used: nat, hit: real, cur: seq<nat>,
                           per: seq<real>, price: real)
  {
    && Progress(segs, j, budget, used, hit, price)
    && |cur| == |per| && Slots(cur) == used && SumReal(per) == hit
    && Shares(segs[..j], cur, per)
  }

  lemma {:induction false} SpendStep(segs: seq<Segment>, j: nat, budget: nat, used: nat, hit: real, cur: seq<nat>,
                                     per: seq<real>, price: real, take: nat) returns (next: real)
    requires Descending(segs) && Usable(segs, |cur|) && j < |segs| && used < budget
    requires Spending(segs, j, budget, used, hit, cur, per, price)
    requires take == (if segs[j].n < budget - used then segs[j].n else budget - used)
    ensures var l, w := segs[j].layer, Worth(segs[j].slope, take);
      Spending(segs, j + 1, budget, used + take, hit + w, cur[l := cur[l] + take], per[l := per[l] + w], next)
  {
    var l := segs[j].layer;
    next := Taken(segs, |cur|, j, budget, used, hit, price, take);
    SharesTake(segs, j, cur, per, take);
    SlotsUpdate(cur, l, take);
    SumUpdateReal(per, l, Worth(segs[j].slope, take));
  }

  lemma {:induction false} SpendDone(segs: seq<Segment>, j: nat, budget: nat, used: nat, hit: real, cur: seq<nat>,
                                     per: seq<real>, price: real) returns (final: real)
    requires Spending(segs, j, budget, used, hit, cur, per, price) && (j == |segs| || used == budget)
    ensures Shares(segs, cur, per) && |cur| == |per| && Slots(cur) <= budget && SumReal(per) == hit
    ensures final >= 0.0 && hit == Worth(final, budget) + Total(segs, Gain(final))
  {
    SharesAll(segs, j, cur, per);
    final := price;
    if used < budget {
      final := 0.0;
      assert segs[..j] == segs;
      WorthZero(budget);
    }
  }

  method Product(slope: real, take: nat) returns (r: real)
    ensures r == Worth(slope, take)
  {
    r := slope * take as real;
    WorthIs(slope, take);
  }

  /** Whatever the budget, the result matches the price bound at some price. */
  method Spend(segs: seq<Segment>, nLayer: nat, budget: nat)
    returns (hit: real, cur: seq<nat>, ghost per: seq<real>, ghost price: real)
    requires Descending(segs) && Usable(segs, nLayer)
    ensures |cur| == |per| == nLayer && Slots(cur) <= budget && SumReal(per) == hit
    ensures Shares(segs, cur, per)
    ensures price >= 0.0 && hit == Worth(price, budget) + Total(segs, Gain(price))
  {
    hit, cur, per := 0.0, seq(nLayer, _ => 0), seq(nLayer, _ => 0.0);
    price := Unspent(segs, budget, cur, per);
    var used: nat := 0;
    var j := 0;
    while j < |segs| && used < budget
      invariant |cur| == nLayer && Spending(segs, j, budget, used, hit, cur, per, price)
    {
      used, hit, cur, per, price := SpendOn(segs, j, budget, used, hit, cur, per, price);
      j := j + 1;
    }
    price := SpendDone(segs, j, budget, used, hit, cur, per, price);
  }

  /** Spend on the next segment: all of it, or what is left of the budget. */
  method SpendOn(segs: seq<Segment>, j: nat, budget: nat, used0: nat, hit0: real, cur0: seq<nat>, ghost per0: seq<real>,
                 ghost price0: real)
    returns (used: nat, hit: real, cur: seq<nat>, ghost per: seq<real>, ghost price: real)
    requires Descending(segs) && Usable(segs, |cur0|) && j < |segs| && used0 < budget
    requires Spending(segs, j, budget, used0, hit0, cur0, per0, price0)
    ensures |cur| == |cur0| && Spending(segs, j + 1, budget, used, hit, cur, per, price)
  {
    var sg := segs[j];
    var take: nat := if sg.n < budget - used0 then sg.n else budget - used0;
    price := SpendStep(segs, j, budget, used0, hit0, cur0, per0, price0, take);
    var gained := Product(sg.slope, take);
    per := per0[sg.layer := per0[sg.layer] + gained];
    cur := cur0[sg.layer := cur0[sg.layer] + take];
    hit, used := hit0 + gained, used0 + take;
  }

  lemma {:induction false} Unspent(segs: seq<Segment>, budget: nat, cur: seq<nat>, per: seq<real>) returns (price: real)
    requires Descending(segs) && Usable(segs, |cur|)
    requires |cur| == |per| && forall l :: 0 <= l < |cur| ==> cur[l] == 0 && per[l] == 0.0
    ensures Spending(segs, 0, budget, 0, 0.0, cur, per, price)
  {
    ZeroSums(cur, per);
    NothingShared(cur, per);
    price := Started(segs, |cur|, budget);
    assert segs[..0] == [];
  }

  lemma {:induction false} NothingShared(cur: seq<nat>, per: seq<real>)
    requires |cur| == |per| && forall l :: 0 <= l < |cur| ==> cur[l] == 0 && per[l] == 0.0
    ensures Shares([], cur, per)
  {
  }

  // ---------------------------------------------------------------------------
  // Sorting
  // ---------------------------------------------------------------------------

  /** Insertion; any algorithm that leaves a descending permutation would do. */
  method SortSegments(segs: seq<Segment>) returns (sorted: seq<Segment>)
    ensures Descending(sorted) && multiset(sorted) == multiset(segs)
  {
    sorted := [];
    var i := 0;
    while i < |segs|
      invariant 0 <= i <= |segs| && Descending(sorted) && multiset(sorted) == multiset(segs[..i])
    {
      sorted := Insert(sorted, segs[i]);
      assert segs[..i + 1] == segs[..i] + [segs[i]];
      i := i + 1;
    }
    assert segs[..i] == segs;
  }

  method Insert(segs: seq<Segment>, s: Segment) returns (r: seq<Segment>)
    requires Descending(segs)
    ensures Descending(r) && multiset(r) == multiset(segs) + multiset{s}
  {
    var k := |segs|;
    while k > 0 && segs[k - 1].slope < s.slope
      invariant 0 <= k <= |segs| && (k < |segs| ==> segs[k].slope <= s.slope)
    {
      k := k - 1;
    }
    InsertedDescends(segs, s, k);
    InsertedSame(segs, s, k);
    r := segs[..k] + [s] + segs[k..];
  }

  lemma {:induction false} InsertedDescends(segs: seq<Segment>, s: Segment, k: nat)
    requires Descending(segs) && k <= |segs|
    requires k > 0 ==> segs[k - 1].slope >= s.slope
    requires k < |segs| ==> segs[k].slope <= s.slope
    ensures Descending(segs[..k] + [s] + segs[k..])
  {
    var r := segs[..k] + [s] + segs[k..];
    forall i, j | 0 <= i < j < |r| ensures r[i].slope >= r[j].slope {
      assert r[i] == (if i < k then segs[i] else if i == k then s else segs[i - 1]);
      assert r[j] == (if j < k then segs[j] else if j == k then s else segs[j - 1]);
    }
  }

  lemma {:induction false} InsertedSame(segs: seq<Segment>, s: Segment, k: nat)
    requires k <= |segs|
    ensures multiset(segs[..k] + [s] + segs[k..]) == multiset(segs) + multiset{s}
  {
    assert segs == segs[..k] + segs[k..];
  }
}
