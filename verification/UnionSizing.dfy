/** Sizing by the expected union: u(n) = N(1 - (1 - k/N)^n) experts for n tokens of k experts
    each, in exact arithmetic; the prefill threshold and the slab size built on it; and what
    these sizes do and do not guarantee. */
module UnionSizing {
  import opened Arithmetic
  import opened Seqs
  import opened CacheModel
  import opened CacheReachability
  import opened Exhaustion
  import opened RemapModel
  import opened RemapCalls
  import ExpertSweep

  const MARGIN: real := 1.15
  const MAX_THRESHOLD: nat := 4096
  const TWO32: int := 0x1_0000_0000

  function Pow(q: real, n: nat): real {
    if n == 0 then 1.0 else q * Pow(q, n - 1)
  }

  /** The share of experts one token does not use. */
  function Rest(nExpert: nat, k: nat): real
    requires nExpert > 0
  {
    1.0 - k as real / nExpert as real
  }

  function Union(nExpert: nat, k: nat, n: nat): real
    requires nExpert > 0
  {
    nExpert as real * (1.0 - Pow(Rest(nExpert, k), n))
  }

  // ---------------------------------------------------------------------------
  // The union estimate
  // ---------------------------------------------------------------------------

  lemma {:induction false} RestTimes(nExpert: nat, k: nat)
    requires nExpert > 0
    ensures nExpert as real * Rest(nExpert, k) == nExpert as real - k as real
    ensures k <= nExpert ==> 0.0 <= Rest(nExpert, k) <= 1.0
  {
    var N, q := nExpert as real, k as real / nExpert as real;
    assert q * N == k as real;
    if k <= nExpert && q > 1.0 { ScaleLess(1.0, q, N); }
    if q < 0.0 { ScaleLess(q, 0.0, N); }
  }

  lemma {:induction false} Expand(n: real, q: real, p: real)
    ensures n * (1.0 - q * p) == (n - n * q) + q * (n * (1.0 - p))
  {
  }

  /** One more token: k new experts, less the overlap. */
  lemma {:induction false} UnionNext(nExpert: nat, k: nat, n: nat)
    requires nExpert > 0
    ensures Union(nExpert, k, 0) == 0.0
    ensures Union(nExpert, k, n + 1) == k as real + Rest(nExpert, k) * Union(nExpert, k, n)
  {
    RestTimes(nExpert, k);
    Expand(nExpert as real, Rest(nExpert, k), Pow(Rest(nExpert, k), n));
  }

  /** Each further token brings k experts, of which the share already used is lost:
      u(n + 1) = k + (1 - k / N) u(n), without dividing. */
  lemma {:induction false} UnionRecurs(nExpert: nat, k: nat, n: nat)
    requires nExpert > 0
    ensures Union(nExpert, k, 0) == 0.0
    ensures nExpert as real * Union(nExpert, k, n + 1) ==
            (nExpert * k) as real + (nExpert as real - k as real) * Union(nExpert, k, n)
  {
    UnionNext(nExpert, k, n);
    RestTimes(nExpert, k);
    var N, q, u := nExpert as real, Rest(nExpert, k), Union(nExpert, k, n);
    assert N * (k as real + q * u) == N * k as real + N * q * u;
    assert N * k as real == (nExpert * k) as real;
  }

  lemma {:induction false} UnionOfOne(nExpert: nat, k: nat)
    requires nExpert > 0
    ensures Union(nExpert, k, 1) == k as real
  {
    UnionNext(nExpert, k, 0);
  }

  /** The estimate is at most all experts; a token adds at most k. */
  lemma {:induction false} UnionRange(nExpert: nat, k: nat, n: nat)
    requires 1 <= k <= nExpert
    ensures 0.0 <= Union(nExpert, k, n) <= nExpert as real
    ensures Union(nExpert, k, n + 1) <= Union(nExpert, k, n) + k as real
  {
    if n == 0 {
      UnionNext(nExpert, k, 0);
    } else {
      UnionRange(nExpert, k, n - 1);
      UnionStays(nExpert, k, n - 1);
    }
    UnionStays(nExpert, k, n);
  }

  lemma {:induction false} UnionStays(nExpert: nat, k: nat, n: nat)
    requires 1 <= k <= nExpert && 0.0 <= Union(nExpert, k, n) <= nExpert as real
    ensures 0.0 <= Union(nExpert, k, n + 1) <= nExpert as real
    ensures Union(nExpert, k, n + 1) <= Union(nExpert, k, n) + k as real
  {
    UnionNext(nExpert, k, n);
    RestTimes(nExpert, k);
    BoundStep(nExpert as real, k as real, Rest(nExpert, k), Union(nExpert, k, n));
  }

  /** The estimate is at most all experts, and at most k per token. */
  lemma {:induction false} UnionBounds(nExpert: nat, k: nat, n: nat)
    requires 1 <= k <= nExpert
    ensures 0.0 <= Union(nExpert, k, n) <= nExpert as real
    ensures Union(nExpert, k, n) <= (n * k) as real
  {
    UnionRange(nExpert, k, n);
    if n > 0 {
      UnionBounds(nExpert, k, n - 1);
      UnionRange(nExpert, k, n - 1);
      NextProduct(n, k);
    } else {
      UnionNext(nExpert, k, 0);
    }
  }

  lemma {:induction false} NextProduct(n: nat, k: nat)
    requires n > 0
    ensures ((n - 1) * k) as real + k as real == (n * k) as real
  {
    assert (n - 1) * k + k == n * k;
  }

  lemma {:induction false} BoundStep(n: real, k: real, q: real, u: real)
    requires 0.0 <= q <= 1.0 && k >= 0.0 && n * q == n - k && 0.0 <= u <= n
    ensures 0.0 <= k + q * u <= n && k + q * u <= k + u
  {
    ScaleLe(u, n, q);
    ScaleLe(q, 1.0, u);
    ScaleLe(0.0, u, q);
  }

  /** More tokens never lower the estimate; they raise it unless every expert is always used. */
  lemma {:induction false} UnionGrows(nExpert: nat, k: nat, n: nat)
    requires 1 <= k <= nExpert
    ensures Union(nExpert, k, n) <= Union(nExpert, k, n + 1)
    ensures k < nExpert ==> Union(nExpert, k, n) < Union(nExpert, k, n + 1)
  {
    UnionNext(nExpert, k, n);
    RestTimes(nExpert, k);
    UnionBounds(nExpert, k, n);
    if k < nExpert { UnionBelow(nExpert, k, n); }
    GrowStep(nExpert as real, k as real, Rest(nExpert, k), Union(nExpert, k, n));
  }

  /** k + q u - u == (1 - q)(n - u) */
  lemma {:induction false} GrowStep(n: real, k: real, q: real, u: real)
    requires n > 0.0 && k > 0.0 && n * q == n - k && u <= n
    ensures k + q * u >= u && (u < n ==> k + q * u > u)
  {
    assert (1.0 - q) * (n - u) == k - u + q * u;
    if q >= 1.0 { ScaleLe(1.0, q, n); }
    ScaleLe(0.0, n - u, 1.0 - q);
    if u < n { ScaleLess(0.0, n - u, 1.0 - q); }
  }

  lemma {:induction false} UnionBelow(nExpert: nat, k: nat, n: nat)
    requires 1 <= k < nExpert
    ensures Union(nExpert, k, n) < nExpert as real
  {
    UnionNext(nExpert, k, if n > 0 then n - 1 else 0);
    if n > 0 {
      UnionBelow(nExpert, k, n - 1);
      BelowStep(nExpert as real, k as real, Rest(nExpert, k), Union(nExpert, k, n - 1)) by { RestTimes(nExpert, k); }
    }
  }

  lemma {:induction false} BelowStep(n: real, k: real, q: real, u: real)
    requires n * q == n - k && n > k && n > 0.0 && u < n
    ensures k + q * u < n
  {
    if q <= 0.0 { ScaleLe(q, 0.0, n); }
    ScaleLess(u, n, q);
  }

  lemma {:induction false} UnionMonotone(nExpert: nat, k: nat, m: nat, n: nat)
    requires 1 <= k <= nExpert && m <= n
    ensures Union(nExpert, k, m) <= Union(nExpert, k, n)
  {
    if m < n {
      UnionMonotone(nExpert, k, m, n - 1);
      UnionGrows(nExpert, k, n - 1);
    }
  }

  // ---------------------------------------------------------------------------
  // The prefill threshold
  // ---------------------------------------------------------------------------

  /** The threshold: with 115% of the expected union of any batch up to it in the slab there is
      room for k experts more, and with the next larger batch there is not. */
  method Threshold(nExpert: nat, k: nat, slots: nat) returns (n: nat)
    requires nExpert > 0
    ensures 1 <= n <= 4096
    ensures forall m :: 2 <= m <= n ==> Union(nExpert, k, m) * 1.15 <= slots as real - k as real
    ensures n < 4096 ==> Union(nExpert, k, n + 1) * 1.15 > slots as real - k as real
  {
    n := 1;
    while n < MAX_THRESHOLD
      invariant 1 <= n <= MAX_THRESHOLD
      invariant forall m :: 2 <= m <= n ==> Union(nExpert, k, m) * MARGIN <= slots as real - k as real
    {
      var u := Union(nExpert, k, n + 1);
      if u * MARGIN + k as real > slots as real { break; }
      n := n + 1;
    }
  }

  /** Stopping at the first batch that does not fit misses none that would: the threshold
      separates the batch sizes that fit from those that do not. */
  lemma {:induction false} ThresholdIsSharp(nExpert: nat, k: nat, slots: nat, n: nat, m: nat)
    requires 1 <= k <= nExpert && 1 <= n && m >= 2
    requires forall i :: 2 <= i <= n ==> Union(nExpert, k, i) * 1.15 <= slots as real - k as real
    requires Union(nExpert, k, n + 1) * 1.15 > slots as real - k as real
    ensures Union(nExpert, k, m) * 1.15 <= slots as real - k as real <==> m <= n
  {
    if m > n {
      UnionMonotone(nExpert, k, n + 1, m);
      ScaleLe(Union(nExpert, k, n + 1), Union(nExpert, k, m), MARGIN);
    }
  }

  // ---------------------------------------------------------------------------
  // The slab size
  // ---------------------------------------------------------------------------

  /** Slots for one micro-batch's union. */
  function Need(nExpert: nat, k: nat, ubatch: nat): (need: int)
    requires nExpert > 0
    ensures 0 <= need < TWO32
  {
    Min(nExpert, Truncate(Union(nExpert, k, ubatch) * MARGIN) + k) % TWO32
  }

  /** The slab size from the size s asked for. It has room for one token's experts whenever
      the model uses no more experts per token than it has; otherwise exactly when the rule
      arrives at all experts. */
  method SlabSlots(s: nat, nExpert: nat, k: nat, ubatch: nat) returns (slots: nat)
    requires 1 < nExpert < TWO32 && k >= 1
    ensures 8 <= slots <= Max(8, nExpert)
    ensures slots >= Min(nExpert, k) <==>
            k <= nExpert || nExpert <= 8 || s >= nExpert || Need(nExpert, k, ubatch) >= nExpert
    ensures k <= nExpert ==> slots >= Min(nExpert, (Union(nExpert, k, ubatch) * 1.15).Floor + k)
    ensures k <= nExpert ==> slots <= Max(8, Max(s, (Union(nExpert, k, ubatch) * 1.15).Floor + k))
    ensures s <= nExpert ==> slots >= s
  {
    var need := Need(nExpert, k, ubatch);
    if k <= nExpert { NeedEnough(nExpert, k, ubatch); }
    slots := Max(8, Min(Max(s, need), nExpert));
  }

  lemma {:induction false} NeedEnough(nExpert: nat, k: nat, ubatch: nat)
    requires 1 <= k <= nExpert < TWO32
    ensures Need(nExpert, k, ubatch) == Min(nExpert, (Union(nExpert, k, ubatch) * MARGIN).Floor + k) >= k
  {
    UnionBounds(nExpert, k, ubatch);
    ScaleLe(0.0, Union(nExpert, k, ubatch), MARGIN);
  }

  /** Powers of a number from -1 to 0, and odd powers of any negative one. */
  lemma {:induction false} NegativePowers(q: real, n: nat)
    requires q <= 0.0
    ensures if n % 2 == 0 then Pow(q, n) >= 0.0 else Pow(q, n) <= 0.0
    ensures q >= -1.0 ==> -1.0 <= Pow(q, n) <= 1.0
  {
    if n > 0 {
      NegativePowers(q, n - 1);
      NegativeTimes(q, Pow(q, n - 1));
    }
  }

  lemma {:induction false} NegativeTimes(q: real, p: real)
    requires q <= 0.0
    ensures p >= 0.0 ==> q * p <= 0.0
    ensures p <= 0.0 ==> q * p >= 0.0
    ensures q >= -1.0 && -1.0 <= p <= 1.0 ==> -1.0 <= q * p <= 1.0
  {
    SignsOut(q, p);
    if p == 0.0 {
      TimesZero(q);
    } else if p > 0.0 {
      ShrinkBy(-q, p);
      assert q * p == -(-q * p);
    } else {
      ShrinkBy(-q, -p);
      assert q * p == -q * -p;
    }
  }

  lemma {:induction false} SignsOut(q: real, p: real)
    ensures q * p == -(-q * p) && q * p == -q * -p
  {
  }

  lemma {:induction false} ShrinkBy(a: real, b: real)
    requires a >= 0.0 && b >= 0.0
    ensures 0.0 <= a * b && (a <= 1.0 ==> a * b <= b) && (b == 0.0 ==> a * b == 0.0)
  {
    ScaleLe(0.0, a, b);
    if a <= 1.0 { ScaleLe(a, 1.0, b); }
    TimesZero(a);
  }

  lemma {:induction false} TimesZero(a: real)
    ensures a * 0.0 == 0.0
  {
  }

  /** Even with more experts per token than there are, the rule arrives at all experts if they
      are at most twice as many or the micro-batch is odd. */
  lemma {:induction false} NeedWide(nExpert: nat, k: nat, ubatch: nat)
    requires 1 <= nExpert < k && nExpert < TWO32 && (k <= 2 * nExpert || ubatch % 2 == 1)
    ensures Need(nExpert, k, ubatch) == nExpert
  {
    WideRest(nExpert, k);
    NegativePowers(Rest(nExpert, k), ubatch);
    ScaleLe(0.0, 1.0 - Pow(Rest(nExpert, k), ubatch), nExpert as real);
    ScaleLe(0.0, Union(nExpert, k, ubatch), MARGIN);
    SmallRemainder(nExpert, TWO32);
  }

  /** More experts per token than there are: nothing rests, and down to minus one of all. */
  lemma {:induction false} WideRest(nExpert: nat, k: nat)
    requires 1 <= nExpert < k
    ensures Rest(nExpert, k) <= 0.0 && (k <= 2 * nExpert ==> Rest(nExpert, k) >= -1.0)
  {
    var N, q := nExpert as real, Rest(nExpert, k);
    RestTimes(nExpert, k);
    if q > 0.0 { ScaleLess(0.0, q, N); }
    if k <= 2 * nExpert {
      assert k as real <= 2.0 * N;
      AtLeastMinusOne(N, q);
    }
  }

  lemma {:induction false} AtLeastMinusOne(n: real, q: real)
    requires n > 0.0 && n * q >= -n
    ensures q >= -1.0
  {
    if q < -1.0 { ScaleLess(q, -1.0, n); }
  }

  /** Beyond that it need not: ten experts, 26 per token, two tokens. */
  lemma {:induction false} NeedCanFallShort()
    ensures Need(10, 26, 2) == 9
  {
    assert Rest(10, 26) == -1.6;
    assert Pow(-1.6, 2) == 2.56;
    assert Union(10, 26, 2) == -15.6;
    assert Truncate(-17.94) == -17;
    SmallRemainder(9, TWO32);
  }

  // ---------------------------------------------------------------------------
  // What always fits
  // ---------------------------------------------------------------------------

  /** A call that is not split owns every expert. */
  ghost function All(nExpert: nat): seq<bool> { ExpertSweep.Own([], nExpert, 1, 0) }

  lemma {:induction false} WantedAtMostIds(ids: seq<int>, own: seq<bool>)
    ensures |Wanted(ids, own)| <= |ids|
  {
    if |ids| > 0 {
      var k := |ids| - 1;
      WantedAtMostIds(ids[..k], own);
      WantedNext(ids[..k], ids[k], own);
      assert ids == ids[..k] + [ids[k]];
    }
  }

  /** A batch never asks for more experts than it has ids, nor than there are. */
  lemma {:induction false} WantedAtMost(ids: seq<int>, own: seq<bool>)
    ensures |Wanted(ids, own)| <= |ids| && |Wanted(ids, own)| <= |own|
  {
    var w := Wanted(ids, own);
    WantedAtMostIds(ids, own);
    RangeCard(|own|);
    SubsetCard(w, Range(|own|));
  }

  /** A slab of at least min(N, k) slots serves every one-token batch, from any state. */
  lemma {:induction false} DecodeNeverExhausts(rt: LayerRt, f: LayerFile, call: Call, nbytes: nat, k: nat)
    requires RtShape(rt, f) && CountsRefs(rt.c, Flat(rt.held))
    requires |call.ids| <= k && rt.c.nSlot >= Min(rt.c.nExpert, k)
    ensures Serve(rt, f, call, nbytes).exhausted == 0
  {
    ExhaustsOnlyIfTooMany(rt, f, call, nbytes);
    WantedAtMost(call.ids, OwnOf(call, rt.c.nExpert));
  }

  /** n tokens of k different experts each. */
  ghost predicate TokenBatch(ids: seq<int>, n: nat, k: nat, nExpert: nat) {
    && |ids| == n * k
    && (forall i :: 0 <= i < |ids| ==> 0 <= ids[i] < nExpert)
    && forall t, i, j :: RowPair(t, i, j, n, k, |ids|) ==> ids[t * k + i] != ids[t * k + j]
  }

  /** i and j are different ranks of token t. */
  ghost predicate RowPair(t: int, i: int, j: int, n: nat, k: nat, len: nat) {
    0 <= t < n && 0 <= i < j < k && 0 <= t * k + i && t * k + j < len
  }

  /** The batch that walks through the experts in order. */
  ghost function Walk(n: nat, k: nat, nExpert: nat): (ids: seq<int>)
    requires nExpert > 0
    ensures |ids| == n * k
  {
    seq(n * k, i requires 0 <= i < n * k => i % nExpert)
  }

  lemma {:induction false} DifferentRests(a: nat, b: nat, m: nat)
    requires a < b < a + m
    ensures a % m != b % m
  {
    if a % m == b % m {
      var p, q := a / m, b / m;
      assert b - a == (q - p) * m;
      if q - p >= 1 { ProductMono(1, q - p, m); } else { ProductMono(q - p, 0, m); }
    }
  }

  lemma {:induction false} WalkIsBatch(n: nat, k: nat, nExpert: nat)
    requires 1 <= k <= nExpert
    ensures TokenBatch(Walk(n, k, nExpert), n, k, nExpert)
  {
    var ids := Walk(n, k, nExpert);
    forall t, i, j | RowPair(t, i, j, n, k, |ids|) ensures ids[t * k + i] != ids[t * k + j] {
      DifferentRests(t * k + i, t * k + j, nExpert);
    }
  }

  lemma {:induction false} WalkWants(n: nat, k: nat, nExpert: nat)
    requires nExpert > 0
    ensures |Wanted(Walk(n, k, nExpert), All(nExpert))| >= Min(nExpert, n * k)
  {
    var ids, own := Walk(n, k, nExpert), All(nExpert);
    var c: nat := Min(nExpert, n * k);
    RangeCard(c);
    forall e: nat | e in Range(c) ensures e in Wanted(ids, own) {
      SmallRemainder(e, nExpert);
      assert ids[e] == e;
    }
    SubsetCard(Range(c), Wanted(ids, own));
  }

  /** Every batch of n tokens asks for no more experts than there are slots. */
  ghost predicate AlwaysFits(n: nat, k: nat, nExpert: nat, slots: nat) {
    forall ids :: TokenBatch(ids, n, k, nExpert) ==> |Wanted(ids, All(nExpert))| <= slots
  }

  /** The exact condition under which no batch of n tokens can exhaust the slab. */
  lemma {:induction false} AlwaysFitsIff(n: nat, k: nat, nExpert: nat, slots: nat)
    requires 1 <= k <= nExpert
    ensures AlwaysFits(n, k, nExpert, slots) <==> Min(nExpert, n * k) <= slots
  {
    WalkIsBatch(n, k, nExpert);
    WalkWants(n, k, nExpert);
    if Min(nExpert, n * k) <= slots {
      forall ids | TokenBatch(ids, n, k, nExpert) ensures |Wanted(ids, All(nExpert))| <= slots {
        WantedAtMost(ids, All(nExpert));
      }
    }
  }

  // ---------------------------------------------------------------------------
  // What the threshold does not promise
  // ---------------------------------------------------------------------------

  /** 16 experts, 2 per token, 15 slots: eight tokens pass the threshold. */
  lemma {:induction false} EightPass()
    ensures Union(16, 2, 8) * 1.15 + 2.0 <= 15.0
  {
    assert Rest(16, 2) == 0.875;
    assert Pow(0.875, 2) == 0.765625;
    assert Pow(0.875, 4) == 0.586181640625;
    assert Pow(0.875, 8) == 0.343608915805816650390625;
  }

  /** 13 slots: six tokens pass, seven do not. */
  lemma {:induction false} SixPassNotSeven()
    ensures Union(16, 2, 6) * 1.15 + 2.0 <= 13.0 < Union(16, 2, 7) * 1.15 + 2.0
  {
    assert Rest(16, 2) == 0.875;
    assert Pow(0.875, 3) == 0.669921875;
    assert Pow(0.875, 6) == 0.448795318603515625;
    assert Pow(0.875, 7) == 0.392695903778076171875;
  }

  /** Yet eight tokens can ask for all sixteen experts, and then the slab runs out, whatever
      it held before: the threshold bounds an expectation, not the batch. */
  lemma {:induction false} ThresholdCanExhaust(rt: LayerRt, f: LayerFile, nbytes: nat)
    requires RtInv(rt, f) && rt.c.nExpert == 16 && rt.c.nSlot == 15
    ensures Union(16, 2, 8) * 1.15 + 2.0 <= 15.0 && TokenBatch(Walk(8, 2, 16), 8, 2, 16)
    ensures Serve(rt, f, Call(0, 1, Walk(8, 2, 16)), nbytes).exhausted > 0
  {
    var ids := Walk(8, 2, 16);
    EightPass();
    WalkIsBatch(8, 2, 16);
    WalkWants(8, 2, 16);
    LightIfShort(ids, All(16));
    ExhaustsIffTooMany(rt, f, Call(0, 1, ids), nbytes);
    assert ExpertSweep.Own(ids, 16, 1, 0) == All(16);
  }

  lemma {:induction false} LightIfShort(ids: seq<int>, own: seq<bool>)
    requires |ids| < RC_MOD
    ensures Light(ids, own)
  {
    forall e: nat ensures multiset(ids)[e] < RC_MOD {
      CountAtMost(ids, e);
    }
  }

  lemma {:induction false} CountAtMost(ids: seq<int>, e: int)
    ensures multiset(ids)[e] <= |ids|
  {
    if |ids| > 0 {
      var k := |ids| - 1;
      CountAtMost(ids[..k], e);
      assert ids == ids[..k] + [ids[k]];
    }
  }
}
