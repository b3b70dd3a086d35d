/** Rebalancing the per-layer quotas from ghost hits, in exact (real) arithmetic.

    The normalisation is meant to keep the total at the slot count. It does exactly when
    the quota_min floor adds no more than truncation took away; otherwise the total ends
    above the slot count, by the difference. */
module QuotaModel {
  import opened Arithmetic
  import opened Seqs

  datatype Adapt = Adapt(on: bool, period: nat, eta: real, quotaMin: nat)

  function Mean(hits: seq<nat>): real
    requires |hits| > 0
  {
    Sum(hits) as real / |hits| as real
  }

  function Delta(eta: real, hits: nat, mean: real, quota: nat): real
    requires mean > 0.0
  {
    eta * (hits as real - mean) / mean * quota as real
  }

  /** The quota a layer asks for, rounded and clamped. */
  function Wanted(a: Adapt, nExpert: nat, quota: nat, delta: real): (v: nat) {
    Max(0, Min(Max(quota + Truncate(delta + (if delta >= 0.0 then 0.5 else -0.5)), a.quotaMin), nExpert))
  }

  function Wants(a: Adapt, nExpert: nat, quota: seq<nat>, hits: seq<nat>): (w: seq<nat>)
    requires |quota| == |hits| > 0 && Mean(hits) > 0.0
    ensures |w| == |quota|
  {
    seq(|quota|, l requires 0 <= l < |quota| => Wanted(a, nExpert, quota[l], Delta(a.eta, hits[l], Mean(hits), quota[l])))
  }

  /** Each want scaled so that the total becomes nSlot, then truncated. When nothing is wanted
      the scale is a quotient by zero and no share exceeds the floor. */
  function Share(v: nat, nSlot: nat, sum: int): nat {
    if sum <= 0 then 0
    else
      var scale := nSlot as real / sum as real;
      assert v as real * scale >= 0.0;
      (v as real * scale).Floor
  }

  function Shares(w: seq<nat>, nSlot: nat): (r: seq<nat>)
    ensures |r| == |w|
  {
    seq(|w|, l requires 0 <= l < |w| => Share(w[l], nSlot, Sum(w)))
  }

  function Floored(t: seq<nat>, quotaMin: nat): (r: seq<nat>)
    ensures |r| == |t|
  {
    seq(|t|, l requires 0 <= l < |t| => Max(quotaMin, t[l]))
  }

  /** One slot to each layer in turn, from layer l on, until d are handed out. */
  function TopUp(q: seq<nat>, l: nat, d: nat): (r: seq<nat>)
    requires |q| > 0
    ensures |r| == |q|
    decreases d
  {
    if d == 0 then q else TopUp(q[l % |q| := q[l % |q|] + 1], l + 1, d - 1)
  }

  function Missing(q: seq<nat>, nSlot: nat): nat {
    if Sum(q) < nSlot then nSlot - Sum(q) else 0
  }

  /** Scale to the slot count, floor, top up. */
  function Normalised(w: seq<nat>, nSlot: nat, quotaMin: nat): (r: seq<nat>)
    requires |w| > 0
    ensures |r| == |w|
  {
    var f := Floored(Shares(w, nSlot), quotaMin);
    TopUp(f, 0, Missing(f, nSlot))
  }

  function Rebalanced(a: Adapt, nExpert: nat, nSlot: nat, quota: seq<nat>, hits: seq<nat>): (r: seq<nat>)
    requires |quota| == |hits| > 0
    ensures |r| == |quota|
  {
    if Mean(hits) <= 0.0 then quota else Normalised(Wants(a, nExpert, quota, hits), nSlot, a.quotaMin)
  }

  // ---------------------------------------------------------------------------
  // Arithmetic
  // ---------------------------------------------------------------------------

  lemma {:induction false} SumNonNegative(w: seq<nat>)
    ensures Sum(w) >= 0
  {
    if |w| > 0 { SumNonNegative(w[..|w| - 1]); }
  }

  lemma {:induction false} TopUpSum(q: seq<nat>, l: nat, d: nat)
    requires |q| > 0
    ensures Sum(TopUp(q, l, d)) == Sum(q) + d
    ensures forall k :: 0 <= k < |q| ==> TopUp(q, l, d)[k] >= q[k]
    decreases d
  {
    if d > 0 {
      var at := l % |q|;
      SumUpdate(q, at, q[at] + 1);
      TopUpSum(q[at := q[at] + 1], l + 1, d - 1);
    }
  }

  /** Truncating each share loses less than one slot per layer, and never gains. */
  lemma {:induction false} SharesSum(w: seq<nat>, scale: real, t: seq<nat>)
    requires scale >= 0.0 && |t| == |w|
    requires forall l :: 0 <= l < |w| ==> t[l] == (w[l] as real * scale).Floor
    ensures Sum(t) as real <= Sum(w) as real * scale
    ensures |w| > 0 ==> Sum(w) as real * scale < (Sum(t) + |w|) as real
  {
    if |w| > 0 {
      var n := |w| - 1;
      SharesSum(w[..n], scale, t[..n]);
      ShareStep(Sum(w[..n]), w[n], scale, Sum(t[..n]), t[n], n);
    }
  }

  lemma {:induction false} ShareStep(x: int, y: int, scale: real, tx: int, ty: int, n: nat)
    requires tx as real <= x as real * scale && ty == (y as real * scale).Floor
    requires if n > 0 then x as real * scale < (tx + n) as real else x == 0 && tx == 0
    ensures (tx + ty) as real <= (x + y) as real * scale < (tx + ty + n + 1) as real
  {
    Distribute(x as real, y as real, scale);
  }

  /** How many slots the quota_min floor added to the truncated shares. */
  function FloorAdded(t: seq<nat>, quotaMin: nat): int {
    Sum(Floored(t, quotaMin)) - Sum(t)
  }

  lemma {:induction false} FloorAddedZero(t: seq<nat>, quotaMin: nat)
    ensures FloorAdded(t, quotaMin) >= 0
    ensures FloorAdded(t, quotaMin) == 0 <==> forall l :: 0 <= l < |t| ==> t[l] >= quotaMin
  {
    if |t| > 0 {
      var n := |t| - 1;
      FloorAddedZero(t[..n], quotaMin);
      assert Floored(t, quotaMin)[..n] == Floored(t[..n], quotaMin);
    }
  }

  /** Before the floor, the shares fall short of the slot count by less than one per layer. */
  lemma SharesLoss(w: seq<nat>, nSlot: nat)
    requires |w| > 0 && Sum(w) > 0
    ensures 0 <= nSlot - Sum(Shares(w, nSlot)) < |w|
  {
    var scale := nSlot as real / Sum(w) as real;
    assert Sum(w) as real * scale == nSlot as real;
    SharesSum(w, scale, Shares(w, nSlot));
  }

  /** When nothing is wanted, no share is given. */
  lemma {:induction false} SharesNone(w: seq<nat>, nSlot: nat)
    requires Sum(w) <= 0
    ensures Sum(Shares(w, nSlot)) == 0
  {
    SumZero(Shares(w, nSlot));
  }

  /** What rebalancing does to the total: never below the slot count; above it exactly by
      what the floor added beyond what the shares fell short; every quota ends at quota_min
      or more; and if anything is wanted the top-up loop hands out fewer than n_layer slots. */
  lemma NormalisedTotal(w: seq<nat>, nSlot: nat, quotaMin: nat)
    requires |w| > 0
    ensures var t := Shares(w, nSlot);
      && Sum(t) <= nSlot
      && (Sum(w) > 0 ==> nSlot - Sum(t) < |w| && Missing(Floored(t, quotaMin), nSlot) < |w|)
      && Sum(Normalised(w, nSlot, quotaMin)) == nSlot + Max(0, FloorAdded(t, quotaMin) - (nSlot - Sum(t)))
      && ((forall l :: 0 <= l < |t| ==> t[l] >= quotaMin) ==> Sum(Normalised(w, nSlot, quotaMin)) == nSlot)
    ensures forall l :: 0 <= l < |w| ==> Normalised(w, nSlot, quotaMin)[l] >= quotaMin
  {
    var t := Shares(w, nSlot);
    var f := Floored(t, quotaMin);
    if Sum(w) > 0 { SharesLoss(w, nSlot); } else { SharesNone(w, nSlot); }
    FloorAddedZero(t, quotaMin);
    TopUpSum(f, 0, Missing(f, nSlot));
  }

  /** Rebalancing never leaves a layer below quota_min, and never the total below the slot
      count; without ghost hits it leaves the quotas alone. */
  lemma RebalancedBounds(a: Adapt, nExpert: nat, nSlot: nat, quota: seq<nat>, hits: seq<nat>)
    requires |quota| == |hits| > 0
    ensures var r := Rebalanced(a, nExpert, nSlot, quota, hits);
      if Mean(hits) <= 0.0 then r == quota
      else Sum(r) >= nSlot && forall l :: 0 <= l < |r| ==> r[l] >= a.quotaMin
  {
    if Mean(hits) > 0.0 {
      NormalisedTotal(Wants(a, nExpert, quota, hits), nSlot, a.quotaMin);
    }
  }

  lemma {:induction false} SumAtLeast(q: seq<nat>, m: nat)
    requires forall l :: 0 <= l < |q| ==> q[l] >= m
    ensures Sum(q) >= |q| * m
  {
    if |q| > 0 {
      SumAtLeast(q[..|q| - 1], m);
      ProductNext(|q| - 1, m);
    }
  }

  /** Wherever the floors alone exceed the slots, every rebalancing that takes effect leaves a
      total above the slot count. */
  lemma {:induction false} RebalanceExceeds(a: Adapt, nExpert: nat, nSlot: nat, quota: seq<nat>, hits: seq<nat>)
    requires |quota| == |hits| > 0 && |quota| * a.quotaMin > nSlot && Mean(hits) > 0.0
    ensures Sum(Rebalanced(a, nExpert, nSlot, quota, hits)) > nSlot
  {
    RebalancedBounds(a, nExpert, nSlot, quota, hits);
    SumAtLeast(Rebalanced(a, nExpert, nSlot, quota, hits), a.quotaMin);
  }

  // ---------------------------------------------------------------------------
  // Who gains
  // ---------------------------------------------------------------------------

  /** Rounding to the nearest, halves away from zero. */
  lemma {:induction false} Rounded(d: real)
    ensures var r := Truncate(d + (if d >= 0.0 then 0.5 else -0.5));
      -0.5 <= r as real - d <= 0.5 && (d >= 0.0 ==> r >= 0) && (d <= 0.0 ==> r <= 0)
  {
  }

  lemma {:induction false} RoundMonotone(d: real, e: real)
    requires d <= e
    ensures Truncate(d + (if d >= 0.0 then 0.5 else -0.5)) <= Truncate(e + (if e >= 0.0 then 0.5 else -0.5))
  {
  }

  /** The quota a layer asks for without limits: its own, changed in proportion to how far its
      ghost hits are from the mean. */
  ghost function Fair(eta: real, hits: nat, mean: real, quota: nat): real
    requires mean > 0.0
  {
    quota as real * (1.0 + eta * ((hits as real - mean) / mean))
  }

  lemma {:induction false} DeltaIsFair(eta: real, hits: nat, mean: real, quota: nat)
    requires mean > 0.0
    ensures Delta(eta, hits, mean, quota) == Fair(eta, hits, mean, quota) - quota as real
  {
    var x := hits as real - mean;
    Reorder(eta, x, mean);
    var y := eta * (x / mean);
    assert eta * x / mean == y;
    Distribute(1.0, y, quota as real);
  }

  lemma {:induction false} Reorder(eta: real, x: real, mean: real)
    requires mean > 0.0
    ensures eta * x / mean == eta * (x / mean)
  {
    Quotient(x, mean);
    Quotient(eta * x, mean);
    var y, z := x / mean, eta * x / mean;
    assert z * mean == eta * (y * mean) == (eta * y) * mean;
    if z < eta * y { ScaleLess(z, eta * y, mean); }
    if z > eta * y { ScaleLess(eta * y, z, mean); }
  }

  /** A want is the layer's quota, changed in proportion to how far its ghost hits are from the
      mean, rounded to the nearest and kept between quota_min and n_expert. */
  lemma {:induction false} WantIsFair(a: Adapt, nExpert: nat, quota: seq<nat>, hits: seq<nat>, l: nat) returns (r: int)
    requires |quota| == |hits| && l < |hits| && Mean(hits) > 0.0
    ensures var mean := Sum(hits) as real / |hits| as real;
      -0.5 <= r as real - quota[l] as real * (1.0 + a.eta * ((hits[l] as real - mean) / mean)) <= 0.5
    ensures Wants(a, nExpert, quota, hits)[l] ==
      if nExpert <= a.quotaMin || r >= nExpert then nExpert else if r <= a.quotaMin then a.quotaMin else r
  {
    var d := Delta(a.eta, hits[l], Mean(hits), quota[l]);
    Rounded(d);
    DeltaIsFair(a.eta, hits[l], Mean(hits), quota[l]);
    r := quota[l] + Truncate(d + (if d >= 0.0 then 0.5 else -0.5));
  }

  /** The sign of a change is the sign of the distance from the mean. */
  lemma {:induction false} FairSign(eta: real, hits: nat, mean: real, quota: nat)
    requires mean > 0.0 && eta >= 0.0
    ensures hits as real >= mean ==> Fair(eta, hits, mean, quota) >= quota as real
    ensures hits as real <= mean ==> Fair(eta, hits, mean, quota) <= quota as real
  {
    var x := hits as real - mean;
    DeltaIsFair(eta, hits, mean, quota);
    Quotient(eta * x, mean);
    if x >= 0.0 { ScaleLe(0.0, eta, x); } else { ScaleLe(x, 0.0, eta); }
    var y := eta * x / mean;
    if x >= 0.0 && y < 0.0 { ScaleLess(y, 0.0, mean); }
    if x <= 0.0 && y > 0.0 { ScaleLess(0.0, y, mean); }
    if y >= 0.0 { ScaleLe(0.0, y, quota as real); } else { ScaleLe(y, 0.0, quota as real); }
  }

  /** More ghost hits, more is fair. */
  lemma {:induction false} FairGrows(eta: real, h: nat, k: nat, mean: real, quota: nat)
    requires mean > 0.0 && eta >= 0.0 && h <= k
    ensures Fair(eta, h, mean, quota) <= Fair(eta, k, mean, quota)
  {
    var x, y := h as real - mean, k as real - mean;
    Quotient(x, mean);
    Quotient(y, mean);
    QuotientGrows(x, y, mean);
    ScaleLe(x / mean, y / mean, eta);
    ScaleLe(1.0 + eta * (x / mean), 1.0 + eta * (y / mean), quota as real);
  }

  /** A layer with at least the mean of the ghost hits asks for at least its quota, as far as
      there are experts; one with at most the mean for at most its quota, as far as the floor
      allows. */
  lemma {:induction false} WantFollowsHits(a: Adapt, nExpert: nat, quota: seq<nat>, hits: seq<nat>, l: nat)
    requires |quota| == |hits| && l < |hits| && Mean(hits) > 0.0 && a.eta >= 0.0
    ensures hits[l] * |hits| >= Sum(hits) ==> Wants(a, nExpert, quota, hits)[l] >= Min(quota[l], nExpert)
    ensures hits[l] * |hits| <= Sum(hits) ==> Wants(a, nExpert, quota, hits)[l] <= Max(quota[l], a.quotaMin)
  {
    MeanCompare(hits, l);
    DeltaSign(a.eta, hits[l], Mean(hits), quota[l]);
    Rounded(Delta(a.eta, hits[l], Mean(hits), quota[l]));
  }

  lemma {:induction false} MeanCompare(hits: seq<nat>, l: nat)
    requires l < |hits|
    ensures hits[l] * |hits| >= Sum(hits) ==> hits[l] as real >= Mean(hits)
    ensures hits[l] * |hits| <= Sum(hits) ==> hits[l] as real <= Mean(hits)
  {
    QuotientCompare(hits[l], |hits|, Sum(hits));
  }

  lemma {:induction false} QuotientCompare(h: nat, n: nat, s: int)
    requires n > 0
    ensures h * n >= s ==> h as real >= s as real / n as real
    ensures h * n <= s ==> h as real <= s as real / n as real
  {
    var mean := s as real / n as real;
    Quotient(s as real, n as real);
    CastProduct(h, n);
    if h as real < mean { ScaleLess(h as real, mean, n as real); }
    if h as real > mean { ScaleLess(mean, h as real, n as real); }
  }

  lemma {:induction false} DeltaSign(eta: real, hits: nat, mean: real, quota: nat)
    requires mean > 0.0 && eta >= 0.0
    ensures hits as real >= mean ==> Delta(eta, hits, mean, quota) >= 0.0
    ensures hits as real <= mean ==> Delta(eta, hits, mean, quota) <= 0.0
  {
    FairSign(eta, hits, mean, quota);
    DeltaIsFair(eta, hits, mean, quota);
  }

  /** Of two layers with the same quota the one with more ghost hits asks for no less. */
  lemma {:induction false} WantsGrow(a: Adapt, nExpert: nat, quota: seq<nat>, hits: seq<nat>, i: nat, j: nat)
    requires |quota| == |hits| && i < |hits| && j < |hits| && Mean(hits) > 0.0 && a.eta >= 0.0
    requires quota[i] == quota[j] && hits[i] >= hits[j]
    ensures Wants(a, nExpert, quota, hits)[i] >= Wants(a, nExpert, quota, hits)[j]
  {
    var mean := Mean(hits);
    FairGrows(a.eta, hits[j], hits[i], mean, quota[i]);
    DeltaIsFair(a.eta, hits[i], mean, quota[i]);
    DeltaIsFair(a.eta, hits[j], mean, quota[j]);
    RoundMonotone(Delta(a.eta, hits[j], mean, quota[j]), Delta(a.eta, hits[i], mean, quota[i]));
  }

  /** A share is the layer's part of the slots, rounded down. */
  lemma {:induction false} ShareIs(v: nat, nSlot: nat, sum: int)
    requires sum > 0
    ensures Share(v, nSlot, sum) as real * sum as real <= v as real * nSlot as real
            < (Share(v, nSlot, sum) + 1) as real * sum as real
  {
    var scale, t := nSlot as real / sum as real, Share(v, nSlot, sum);
    Quotient(nSlot as real, sum as real);
    Associate(v as real, scale, sum as real);
    ScaleLe(t as real, v as real * scale, sum as real);
    ScaleLess(v as real * scale, (t + 1) as real, sum as real);
  }

  lemma {:induction false} Associate(x: real, y: real, z: real)
    ensures x * y * z == x * (y * z)
  {
  }

  lemma {:induction false} SharesGrow(v: nat, w: nat, nSlot: nat, sum: int)
    requires v <= w
    ensures Share(v, nSlot, sum) <= Share(w, nSlot, sum)
  {
    if sum > 0 {
      var scale := nSlot as real / sum as real;
      Quotient(nSlot as real, sum as real);
      if scale < 0.0 { ScaleLess(scale, 0.0, sum as real); }
      ScaleLe(v as real, w as real, scale);
    }
  }

  /** The last slot handed out. */
  lemma {:induction false} TopUpLast(q: seq<nat>, l: nat, d: nat)
    requires |q| > 0
    ensures var t := TopUp(q, l, d);
      TopUp(q, l, d + 1) == t[(l + d) % |q| := t[(l + d) % |q|] + 1]
    decreases d
  {
    if d > 0 {
      TopUpLast(q[l % |q| := q[l % |q|] + 1], l + 1, d - 1);
    } else {
      assert TopUp(q, l, 0) == q;
    }
  }

  /** Handing out d slots in turn gives every layer d / n, and the first d % n one more. */
  lemma {:induction false} TopUpCount(q: seq<nat>, d: nat, k: nat)
    requires k < |q|
    ensures TopUp(q, 0, d)[k] == q[k] + d / |q| + (if k < d % |q| then 1 else 0)
  {
    var n := |q|;
    if d == 0 {
      SmallRemainder(0, n);
    } else {
      TopUpCount(q, d - 1, k);
      TopUpLast(q, 0, d - 1);
      NextParts(d - 1, n);
    }
  }

  /** The quota of each layer in the end: its share or the floor, and what the top-up gives. */
  lemma {:induction false} NormalisedIs(w: seq<nat>, nSlot: nat, quotaMin: nat, k: nat)
    requires k < |w|
    ensures var f := seq(|w|, l requires 0 <= l < |w| => Max(quotaMin, Share(w[l], nSlot, Sum(w))));
      var d := Max(0, nSlot - Sum(f));
      Normalised(w, nSlot, quotaMin)[k] == f[k] + d / |w| + (if k < d % |w| then 1 else 0)
  {
    var f := seq(|w|, l requires 0 <= l < |w| => Max(quotaMin, Share(w[l], nSlot, Sum(w))));
    var g := Floored(Shares(w, nSlot), quotaMin);
    assert f == g;
    TopUpCount(g, Missing(g, nSlot), k);
  }

  lemma {:induction false} NextParts(x: nat, n: nat)
    requires n > 0
    ensures if x % n + 1 < n then (x + 1) / n == x / n && (x + 1) % n == x % n + 1
            else (x + 1) / n == x / n + 1 && (x + 1) % n == 0
  {
    DivisionParts(x, n);
    if x % n + 1 < n {
      RemainderUnique(x + 1, x / n, x % n + 1, n);
    } else {
      ProductNext(x / n, n);
      RemainderUnique(x + 1, x / n + 1, 0, n);
    }
  }

  /** More ghost hits, no fewer slots: of two layers with the same quota the one with more
      ghost hits ends with at least as many slots as the other, up to the one slot that the
      top-up may give either. */
  lemma {:induction false} RebalanceFavours(a: Adapt, nExpert: nat, nSlot: nat, quota: seq<nat>, hits: seq<nat>, i: nat, j: nat)
    requires |quota| == |hits| && i < |hits| && j < |hits| && a.eta >= 0.0
    requires quota[i] == quota[j] && hits[i] >= hits[j]
    ensures Rebalanced(a, nExpert, nSlot, quota, hits)[i] + 1 >= Rebalanced(a, nExpert, nSlot, quota, hits)[j]
  {
    if Mean(hits) > 0.0 {
      var w := Wants(a, nExpert, quota, hits);
      WantsGrow(a, nExpert, quota, hits, i, j);
      SharesGrow(w[j], w[i], nSlot, Sum(w));
      var f := Floored(Shares(w, nSlot), a.quotaMin);
      TopUpCount(f, Missing(f, nSlot), i);
      TopUpCount(f, Missing(f, nSlot), j);
    }
  }

  /** Two layers of 32 slots, 30 and 10 ghost hits: two slots change hands. */
  lemma {:induction false} TwoSlotsMove()
    ensures Rebalanced(Adapt(true, 1, 0.1, 8), 256, 64, [32, 32], [30, 10]) == [34, 30]
  {
    var a := Adapt(true, 1, 0.1, 8);
    assert Sum([30, 10]) == 40 by { assert [30, 10][..1] == [30]; assert [30][..0] == []; }
    assert Mean([30, 10]) == 20.0;
    assert Wants(a, 256, [32, 32], [30, 10]) == [34, 30];
    assert Sum([34, 30]) == 64 by { assert [34, 30][..1] == [34]; assert [34][..0] == []; }
    assert Shares([34, 30], 64) == [34, 30];
    assert Floored([34, 30], 8) == [34, 30];
  }
}
