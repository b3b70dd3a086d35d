/** The layout of the recorded traces the policy simulators read: ids by token, layer and rank. */
module PolicyTrace {
  import opened Arithmetic
  import opened StackDistance

  /** The accesses among the first n ids of a trace laid out by token, layer and rank; ids
      of no expert are skipped. */
  function Trace(ids: seq<nat>, nLayer: nat, topK: nat, nExpert: nat, n: nat): seq<Access>
    requires n <= |ids| && nLayer > 0 && topK > 0
  {
    if n == 0 then []
    else
      var t := Trace(ids, nLayer, topK, nExpert, n - 1);
      if ids[n - 1] < nExpert then t + [Access((n - 1) / topK % nLayer, ids[n - 1])] else t
  }

  /** The ids of row r = tok * L + l, at positions r * K and up, belong to layer l. */
  lemma {:induction false} LayerOf(r: nat, k: nat, nLayer: nat, topK: nat)
    requires nLayer > 0 && k < topK
    ensures (r * topK + k) / topK % nLayer == r % nLayer
  {
    RemainderUnique(r * topK + k, r, k, topK);
  }

  /** Row l of a token whose first row is r0. */
  lemma {:induction false} RowOf(r0: nat, l: nat, nLayer: nat, topK: nat)
    requires l < nLayer && r0 % nLayer == 0
    ensures (r0 + l) % nLayer == l
    ensures (r0 + l) * topK + topK == (r0 + l + 1) * topK <= (r0 + nLayer) * topK
  {
    DivisionParts(r0, nLayer);
    RemainderUnique(r0 + l, r0 / nLayer, l, nLayer);
    ProductNext(r0 + l, topK);
    ProductMono(r0 + l + 1, r0 + nLayer, topK);
  }

  /** A token's first row, and the next token's. */
  lemma {:induction false} TokenRows(tok: nat, nToken: nat, nLayer: nat, topK: nat)
    requires tok < nToken && nLayer > 0
    ensures tok * nLayer % nLayer == 0 && tok * nLayer + nLayer == (tok + 1) * nLayer
    ensures (tok * nLayer + nLayer) * topK <= nToken * nLayer * topK
  {
    RemainderUnique(tok * nLayer, tok, 0, nLayer);
    ProductNext(tok, nLayer);
    ProductMono(tok + 1, nToken, nLayer);
    ProductMono((tok + 1) * nLayer, nToken * nLayer, topK);
  }

  /** The access at rank k of row r. */
  lemma {:induction false} TraceNext(ids: seq<nat>, nLayer: nat, topK: nat, nExpert: nat, r: nat, k: nat, base: nat)
    requires nLayer > 0 && k < topK && base == r * topK && base + k < |ids|
    ensures var t, e := Trace(ids, nLayer, topK, nExpert, base + k), ids[base + k];
      Trace(ids, nLayer, topK, nExpert, base + k + 1) == if e < nExpert then t + [Access(r % nLayer, e)] else t
  {
    LayerOf(r, k, nLayer, topK);
  }
}
