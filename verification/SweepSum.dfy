/** An Expert Sweep adds up: the sum over the passes of what each position contributes is
    what the unsplit computation contributes there. */
module SweepSum {
  import opened Seqs
  import opened Memory
  import opened CacheModel
  import opened LayerIsolation
  import opened Exhaustion
  import opened RemapModel
  import opened RemapCalls
  import opened ExpertSweep

  /** The weights (gate, up, down) position i of a call multiplies with. */
  ghost function Gathered(rt: LayerRt, f: LayerFile, call: Call, nbytes: nat, i: nat): seq<Block>
    requires RtShape(rt, f) && call.pass < PASSES && i < |call.ids|
  {
    AfterShape(rt, f, call, nbytes);
    ServeInRange(rt, f, call, nbytes);
    var out := Serve(rt, f, call, nbytes).out;
    var slab := After(rt, f, call, nbytes).slab;
    seq(ROLES, r requires 0 <= r < ROLES => slab[r][out[i]])
  }

  function Weights(f: LayerFile, n: nat, e: nat): seq<Block>
    requires FileShape(f, n) && e < n
  {
    seq(ROLES, r requires 0 <= r < ROLES => f.bytes[r][e])
  }

  function Null(f: LayerFile): seq<Block>
    requires |f.zeros| == ROLES
  {
    seq(ROLES, r requires 0 <= r < ROLES => f.zeros[r])
  }

  /** The calls of the first p passes over one batch. */
  function Passes(ids: seq<int>, np: nat, p: nat): (c: seq<Call>)
    requires p <= PASSES
    ensures |c| == p && CallsOk(c)
  {
    seq(p, k requires 0 <= k < p => Call(k, np, ids))
  }

  /** What pass k multiplies with at position i, after the passes before it. */
  ghost function PassTerm(rt: LayerRt, f: LayerFile, ids: seq<int>, np: nat, k: nat, nbytes: nat, i: nat): seq<Block>
    requires RtShape(rt, f) && k < PASSES && i < |ids|
  {
    Gathered(Run(rt, f, Passes(ids, np, k), nbytes), f, Call(k, np, ids), nbytes, i)
  }

  /** Contributions, added up. */
  function SumOf(terms: seq<seq<Block>>, g: seq<Block> -> real): real {
    if |terms| == 0 then 0.0 else SumOf(terms[..|terms| - 1], g) + g(terms[|terms| - 1])
  }

  /** What the np passes multiply with at position i. */
  ghost function Terms(rt: LayerRt, f: LayerFile, ids: seq<int>, np: nat, nbytes: nat, i: nat): (t: seq<seq<Block>>)
    requires RtShape(rt, f) && np <= PASSES && i < |ids|
    ensures |t| == np
  {
    seq(np, k requires 0 <= k < np => PassTerm(rt, f, ids, np, k, nbytes, i))
  }

  lemma PassFits(ids: seq<int>, n: nat, np: nat, pass: nat, nSlot: nat)
    requires np > 1 && Per(|Distinct(ids, n)|, np) <= nSlot
    ensures |Wanted(ids, Own(ids, n, np, pass))| <= nSlot
  {
    SweepBound(ids, n, np, pass);
    SubsetCard(Wanted(ids, Own(ids, n, np, pass)), ExpertSweep.Owned(Own(ids, n, np, pass)));
  }

  /** What is safe in one piece is safe in passes. */
  lemma PassSafe(ids: seq<int>, n: nat, np: nat, pass: nat, nSlot: nat)
    requires Safe(ids, Own(ids, n, 1, 0), nSlot)
    ensures CallSafe(Call(pass, np, ids), n, nSlot)
  {
    if n > nSlot {
      forall e: nat | e < n ensures multiset(ids)[e] < RC_MOD {
        assert Own(ids, n, 1, 0)[e];
      }
    }
  }

  /** One pass contributes the expert's weights if it owns the id, and nothing otherwise. */
  lemma PassContributes(t: LayerRt, f: LayerFile, ids: seq<int>, np: nat, pass: nat, nbytes: nat, i: nat)
    requires RtInv(t, f) && Safe(ids, Own(ids, t.c.nExpert, 1, 0), t.c.nSlot) && np > 1 && pass < PASSES && i < |ids|
    requires Per(|Distinct(ids, t.c.nExpert)|, np) <= t.c.nSlot
    ensures Gathered(t, f, Call(pass, np, ids), nbytes, i) ==
      (if RemapModel.Owned(ids[i], Own(ids, t.c.nExpert, np, pass)) then Weights(f, t.c.nExpert, ids[i]) else Null(f))
  {
    PassFits(ids, t.c.nExpert, np, pass, t.c.nSlot);
    PassSafe(ids, t.c.nExpert, np, pass, t.c.nSlot);
    CallGathers(t, f, Call(pass, np, ids), nbytes, i);
  }

  /** What a call that fits multiplies with at position i. */
  lemma {:induction false} CallGathers(t: LayerRt, f: LayerFile, call: Call, nbytes: nat, i: nat)
    requires RtInv(t, f) && CallSafe(call, t.c.nExpert, t.c.nSlot) && call.pass < PASSES && i < |call.ids|
    requires |Wanted(call.ids, OwnOf(call, t.c.nExpert))| <= t.c.nSlot
    ensures Gathered(t, f, call, nbytes, i) ==
      (if RemapModel.Owned(call.ids[i], OwnOf(call, t.c.nExpert)) then Weights(f, t.c.nExpert, call.ids[i]) else Null(f))
  {
    forall r | 0 <= r < ROLES
      ensures Gathered(t, f, call, nbytes, i)[r] ==
        (if RemapModel.Owned(call.ids[i], OwnOf(call, t.c.nExpert)) then Weights(f, t.c.nExpert, call.ids[i]) else Null(f))[r]
    {
      RemapExact(t, f, call, nbytes, i, r);
    }
  }

  lemma PassTermIs(rt: LayerRt, f: LayerFile, ids: seq<int>, np: nat, k: nat, nbytes: nat, i: nat)
    requires RtInv(rt, f) && Safe(ids, Own(ids, rt.c.nExpert, 1, 0), rt.c.nSlot) && np > 1 && k < PASSES && i < |ids|
    requires Per(|Distinct(ids, rt.c.nExpert)|, np) <= rt.c.nSlot
    ensures PassTerm(rt, f, ids, np, k, nbytes, i) ==
      (if RemapModel.Owned(ids[i], Own(ids, rt.c.nExpert, np, k)) then Weights(f, rt.c.nExpert, ids[i]) else Null(f))
  {
    forall p | 0 <= p < k ensures CallSafe(Passes(ids, np, k)[p], rt.c.nExpert, rt.c.nSlot) {
      PassSafe(ids, rt.c.nExpert, np, p, rt.c.nSlot);
    }
    RunKeeps(rt, f, Passes(ids, np, k), nbytes);
    PassContributes(Run(rt, f, Passes(ids, np, k), nbytes), f, ids, np, k, nbytes, i);
  }

  /** If only the owner's term differs from the null expert, the sum is the owner's. */
  lemma {:induction false} OwnerSum(terms: seq<seq<Block>>, g: seq<Block> -> real, owner: nat, w: seq<Block>, z: seq<Block>)
    requires g(z) == 0.0
    requires forall k :: 0 <= k < |terms| ==> terms[k] == (if k == owner then w else z)
    ensures SumOf(terms, g) == (if owner < |terms| then g(w) else 0.0)
  {
    if |terms| > 0 { OwnerSum(terms[..|terms| - 1], g, owner, w, z); }
  }

  /** The sweep reproduces the unsplit computation at every position: the np passes together
      contribute an in-range expert's weights exactly once, and nothing for any other id. */
  lemma SweepIsUnsplit(rt: LayerRt, f: LayerFile, ids: seq<int>, np: nat, nbytes: nat, i: nat, g: seq<Block> -> real)
    requires RtInv(rt, f) && Safe(ids, Own(ids, rt.c.nExpert, 1, 0), rt.c.nSlot) && 1 < np <= PASSES && i < |ids| && g(Null(f)) == 0.0
    requires Per(|Distinct(ids, rt.c.nExpert)|, np) <= rt.c.nSlot
    ensures SumOf(Terms(rt, f, ids, np, nbytes, i), g) ==
      (if 0 <= ids[i] < rt.c.nExpert then g(Weights(f, rt.c.nExpert, ids[i])) else 0.0)
  {
    var inRange := 0 <= ids[i] < rt.c.nExpert;
    var owner := PASSES;
    if inRange { owner := SweepPartition(ids, rt.c.nExpert, np, ids[i]); }
    var w := if inRange then Weights(f, rt.c.nExpert, ids[i]) else Null(f);
    forall k | 0 <= k < np ensures PassTerm(rt, f, ids, np, k, nbytes, i) == (if k == owner then w else Null(f)) {
      PassTermIs(rt, f, ids, np, k, nbytes, i);
    }
    OwnerSum(Terms(rt, f, ids, np, nbytes, i), g, owner, w, Null(f));
  }
}
