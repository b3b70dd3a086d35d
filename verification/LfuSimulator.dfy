/** The touch-count policy of the policy study: an expert is admitted to a full cache only if it
    has been used more often than the coldest resident, which leaves. The residents are always
    a top set by lifetime count, and the hits are those of this policy. */
module LfuSimulator {
  import opened Seqs
  import opened StackDistance
  import opened PolicyTrace

  /** One layer: lifetime counts, which experts are in, and how many. */
  datatype Row = Row(freq: seq<nat>, held: seq<bool>, resident: nat)

  /** How many of the first n experts are in. */
  function Held(held: seq<bool>, n: nat): nat
    requires n <= |held|
  {
    if n == 0 then 0 else Held(held, n - 1) + (if held[n - 1] then 1 else 0)
  }

  /** Residents never fall behind: everything touched is in until the cache is full, and then
      every resident has at least the count of every other expert. */
  ghost predicate TopSet(row: Row, slots: nat) {
    && |row.held| == |row.freq|
    && row.resident == Held(row.held, |row.held|) <= slots
    && (forall x :: 0 <= x < |row.freq| && row.held[x] ==> row.freq[x] > 0)
    && if row.resident < slots
       then forall x :: 0 <= x < |row.freq| && row.freq[x] > 0 ==> row.held[x]
       else Dominates(row)
  }

  ghost predicate Dominates(row: Row)
    requires |row.held| == |row.freq|
  {
    forall x, y :: 0 <= x < |row.freq| && 0 <= y < |row.freq| && row.held[x] && !row.held[y] ==>
      row.freq[x] >= row.freq[y]
  }

  lemma {:induction false} HeldUpdate(held: seq<bool>, n: nat, x: nat, b: bool)
    requires n <= |held| && x < |held|
    ensures Held(held[x := b], n) ==
      Held(held, n) + (if x < n then (if b then 1 else 0) - (if held[x] then 1 else 0) else 0)
  {
    if n > 0 { HeldUpdate(held, n - 1, x, b); }
  }

  /** Resident x is the coldest, the first of them if there are several. */
  ghost predicate FirstColdest(row: Row, x: nat)
    requires |row.held| == |row.freq| && x < |row.held|
  {
    && row.held[x]
    && forall y :: 0 <= y < |row.held| && row.held[y] ==> row.freq[x] <= row.freq[y] && (y < x ==> row.freq[x] < row.freq[y])
  }

  /** The policy, one access: the count goes up by one; the expert is in afterwards if it was,
      if there is room, or if some resident has been used less often than it has now; then the
      first of the coldest residents leaves, and nobody else ever does. */
  ghost predicate Follows(row: Row, e: nat, slots: nat, next: Row) {
    && |row.held| == |row.freq| && e < |row.freq|
    && next.freq == row.freq[e := row.freq[e] + 1] && |next.held| == |row.held|
    && (next.held[e] <==>
          row.held[e] || row.resident < slots ||
          exists x :: 0 <= x < |row.held| && row.held[x] && row.freq[x] < row.freq[e] + 1)
    && (forall x :: 0 <= x < |row.held| && x != e ==>
          (next.held[x] <==> row.held[x] && (row.held[e] || row.resident < slots || !next.held[e] || !FirstColdest(row, x))))
    && next.resident == row.resident + (if !row.held[e] && row.resident < slots then 1 else 0)
  }

  /** There is one way to follow the policy. */
  lemma {:induction false} FollowsUnique(row: Row, e: nat, slots: nat, a: Row, b: Row)
    requires Follows(row, e, slots, a) && Follows(row, e, slots, b)
    ensures a == b
  {
    forall x | 0 <= x < |row.held| ensures a.held[x] == b.held[x] { }
  }

  /** The coldest resident, the first of them, if there is one. */
  method Coldest(row: Row) returns (best: Option<nat>, victim: nat)
    requires |row.held| == |row.freq|
    ensures best.None? ==> forall x :: 0 <= x < |row.held| ==> !row.held[x]
    ensures best.Some? ==> victim < |row.held| && row.held[victim] && row.freq[victim] == best.value
    ensures best.Some? ==> FirstColdest(row, victim)
  {
    best, victim := None, 0;
    var x := 0;
    while x < |row.held|
      invariant 0 <= x <= |row.held|
      invariant best.None? ==> forall k :: 0 <= k < x ==> !row.held[k]
      invariant best.Some? ==> victim < x && row.held[victim] && row.freq[victim] == best.value
      invariant best.Some? ==> forall k :: 0 <= k < x && row.held[k] ==> best.value <= row.freq[k] && (k < victim ==> best.value < row.freq[k])
    {
      if row.held[x] && (best.None? || row.freq[x] < best.value) { best, victim := Some(row.freq[x]), x; }
      x := x + 1;
    }
  }

  /** A resident is touched again. */
  lemma {:induction false} TouchResident(row: Row, slots: nat, e: nat)
    requires TopSet(row, slots) && e < |row.freq| && row.held[e]
    ensures TopSet(row.(freq := row.freq[e := row.freq[e] + 1]), slots)
  {
  }

  /** Room for one more. */
  lemma {:induction false} Admit(row: Row, slots: nat, e: nat)
    requires TopSet(row, slots) && e < |row.freq| && !row.held[e] && row.resident < slots
    ensures TopSet(Row(row.freq[e := row.freq[e] + 1], row.held[e := true], row.resident + 1), slots)
  {
    HeldUpdate(row.held, |row.held|, e, true);
  }

  /** Not hot enough. */
  lemma {:induction false} Bypass(row: Row, slots: nat, e: nat)
    requires TopSet(row, slots) && e < |row.freq| && !row.held[e] && row.resident == slots
    requires forall x :: 0 <= x < |row.freq| && row.held[x] ==> row.freq[e] + 1 <= row.freq[x]
    ensures TopSet(row.(freq := row.freq[e := row.freq[e] + 1]), slots)
  {
  }

  /** Hotter than the coldest resident, which makes room. */
  lemma {:induction false} Replace(row: Row, slots: nat, e: nat, victim: nat)
    requires TopSet(row, slots) && e < |row.freq| && !row.held[e] && row.resident == slots
    requires victim < |row.freq| && row.held[victim] && row.freq[e] + 1 > row.freq[victim]
    requires forall x :: 0 <= x < |row.freq| && row.held[x] ==> row.freq[victim] <= row.freq[x]
    ensures TopSet(Row(row.freq[e := row.freq[e] + 1], row.held[victim := false][e := true], row.resident), slots)
  {
    HeldUpdate(row.held, |row.held|, victim, false);
    HeldUpdate(row.held[victim := false], |row.held|, e, true);
    HeldPositive(row.held, |row.held|, victim);
  }

  lemma {:induction false} HeldPositive(held: seq<bool>, n: nat, x: nat)
    requires x < n <= |held| && held[x]
    ensures Held(held, n) > 0
  {
    if x < n - 1 { HeldPositive(held, n - 1, x); }
  }

  lemma {:induction false} FollowsKept(row: Row, slots: nat, e: nat)
    requires TopSet(row, slots) && e < |row.freq|
    requires row.held[e] || (row.resident == slots && forall x :: 0 <= x < |row.freq| && row.held[x] ==> row.freq[e] + 1 <= row.freq[x])
    ensures Follows(row, e, slots, row.(freq := row.freq[e := row.freq[e] + 1]))
  {
  }

  lemma {:induction false} FollowsAdmitted(row: Row, slots: nat, e: nat)
    requires TopSet(row, slots) && e < |row.freq| && !row.held[e] && row.resident < slots
    ensures Follows(row, e, slots, Row(row.freq[e := row.freq[e] + 1], row.held[e := true], row.resident + 1))
  {
  }

  lemma {:induction false} FollowsReplaced(row: Row, slots: nat, e: nat, victim: nat)
    requires TopSet(row, slots) && e < |row.freq| && !row.held[e] && row.resident == slots
    requires victim < |row.freq| && FirstColdest(row, victim) && row.freq[e] + 1 > row.freq[victim]
    ensures Follows(row, e, slots, Row(row.freq[e := row.freq[e] + 1], row.held[victim := false][e := true], row.resident))
  {
    assert row.held[victim] && row.freq[victim] < row.freq[e] + 1;
  }

  /** Counting a use of an expert outside does not change who is coldest. */
  lemma {:induction false} StillColdest(row: Row, e: nat, x: nat)
    requires |row.held| == |row.freq| && e < |row.freq| && !row.held[e] && x < |row.held|
    requires FirstColdest(row.(freq := row.freq[e := row.freq[e] + 1]), x)
    ensures FirstColdest(row, x)
  {
    forall y | 0 <= y < |row.held| && row.held[y] ensures row.freq[e := row.freq[e] + 1][y] == row.freq[y] { }
  }

  /** One access of one layer. */
  method AccessRow(row: Row, slots: nat, e: nat) returns (hit: bool, next: Row)
    requires TopSet(row, slots) && e < |row.freq|
    ensures hit == row.held[e]
    ensures TopSet(next, slots) && Follows(row, e, slots, next)
  {
    var freq := row.freq[e := row.freq[e] + 1];
    next := row.(freq := freq);
    hit := row.held[e];
    if hit {
      TouchResident(row, slots, e);
      FollowsKept(row, slots, e);
    } else if row.resident >= slots {
      var best, victim := Coldest(next);
      if best.None? || freq[e] <= best.value {
        Bypass(row, slots, e);
        FollowsKept(row, slots, e);
      } else {
        StillColdest(row, e, victim);
        Replace(row, slots, e, victim);
        FollowsReplaced(row, slots, e, victim);
        HeldPositive(row.held, |row.held|, victim);
        next := Row(freq, row.held[victim := false], row.resident - 1);
        next := Row(freq, next.held[e := true], next.resident + 1);
      }
    } else {
      Admit(row, slots, e);
      FollowsAdmitted(row, slots, e);
      next := Row(freq, next.held[e := true], next.resident + 1);
    }
  }

  /** A resident leaves only for an expert used strictly more often; an expert is in after its
      use if and only if it was, there was room, or a resident had been used less often. */
  lemma {:induction false} LeavesOnlyForHotter(row: Row, e: nat, slots: nat, next: Row)
    requires Follows(row, e, slots, next)
    ensures forall x :: 0 <= x < |row.held| && row.held[x] && !next.held[x] ==> next.freq[e] > row.freq[x]
    ensures forall x, y :: 0 <= x < |row.held| && 0 <= y < |row.held| && row.held[x] && row.held[y] && !next.held[x] && !next.held[y] ==> x == y
    ensures next.held[e] <==> (row.held[e] || row.resident < slots ||
      exists x :: 0 <= x < |row.held| && row.held[x] && row.freq[x] < next.freq[e])
    ensures next.freq[e] == row.freq[e] + 1 && forall x :: 0 <= x < |row.held| && x != e && next.held[x] ==> row.held[x]
  {
    forall x | 0 <= x < |row.held| && row.held[x] && !next.held[x] ensures next.freq[e] > row.freq[x] {
      var y :| 0 <= y < |row.held| && row.held[y] && row.freq[y] < row.freq[e] + 1;
    }
  }

  /** How often expert x of layer l was used. */
  function Uses(acc: seq<Access>, l: nat, x: nat): nat {
    if |acc| == 0 then 0
    else
      var k := |acc| - 1;
      Uses(acc[..k], l, x) + (if acc[k] == Access(l, x) then 1 else 0)
  }

  lemma {:induction false} UsesNext(acc: seq<Access>, a: Access, l: nat, x: nat)
    ensures Uses(acc + [a], l, x) == Uses(acc, l, x) + (if a == Access(l, x) then 1 else 0)
  {
    assert (acc + [a])[..|acc|] == acc;
  }

  datatype Sim = Sim(rows: seq<Row>, hit: nat, miss: nat)

  /** A layer's counts are its uses. */
  ghost predicate Counted(row: Row, acc: seq<Access>, l: nat) {
    forall x: nat :: x < |row.freq| ==> row.freq[x] == Uses(acc, l, x)
  }

  /** The rows before the first access and after each one, every access following the policy. */
  ghost predicate Lived(hist: seq<seq<Row>>, acc: seq<Access>, nLayer: nat, nExpert: nat, slots: nat) {
    && |hist| == |acc| + 1
    && if |acc| == 0 then hist[0] == seq(nLayer, _ => Row(seq(nExpert, _ => 0), seq(nExpert, _ => false), 0))
       else Lived(hist[..|acc|], acc[..|acc| - 1], nLayer, nExpert, slots)
            && Moved(hist[|acc| - 1], acc[|acc| - 1], hist[|acc|], slots)
  }

  /** One access moves its layer's row, by the policy, and no other. */
  ghost predicate Moved(rows: seq<Row>, a: Access, next: seq<Row>, slots: nat) {
    a.l < |rows| == |next| && next == rows[a.l := next[a.l]] && Follows(rows[a.l], a.e, slots, next[a.l])
  }

  /** The accesses that found their expert in. */
  ghost function Found(hist: seq<seq<Row>>, acc: seq<Access>): nat
    requires |hist| == |acc| + 1
  {
    if |acc| == 0 then 0
    else
      var k, a := |acc| - 1, acc[|acc| - 1];
      Found(hist[..|acc|], acc[..k]) +
      (if a.l < |hist[k]| && a.e < |hist[k][a.l].held| && hist[k][a.l].held[a.e] then 1 else 0)
  }

  /** A trace has one history, so the hits of the policy are a function of the trace. */
  lemma {:induction false} HistoryUnique(h: seq<seq<Row>>, g: seq<seq<Row>>, acc: seq<Access>, nLayer: nat, nExpert: nat,
                                         slots: nat)
    requires Lived(h, acc, nLayer, nExpert, slots) && Lived(g, acc, nLayer, nExpert, slots)
    ensures h == g && Found(h, acc) == Found(g, acc)
  {
    if |acc| > 0 {
      var k, a := |acc| - 1, acc[|acc| - 1];
      HistoryUnique(h[..|acc|], g[..|acc|], acc[..k], nLayer, nExpert, slots);
      assert h[..|acc|][k] == h[k] && g[..|acc|][k] == g[k];
      FollowsUnique(h[k][a.l], a.e, slots, h[k + 1][a.l], g[k + 1][a.l]);
      assert h == h[..|acc|] + [h[k + 1]] && g == g[..|acc|] + [g[k + 1]];
    }
  }

  lemma {:induction false} LivedNext(hist: seq<seq<Row>>, acc: seq<Access>, a: Access, next: seq<Row>, nLayer: nat, nExpert: nat,
                                     slots: nat)
    requires Lived(hist, acc, nLayer, nExpert, slots) && Moved(hist[|acc|], a, next, slots)
    ensures Lived(hist + [next], acc + [a], nLayer, nExpert, slots)
    ensures Found(hist + [next], acc + [a]) == Found(hist, acc) + (if hist[|acc|][a.l].held[a.e] then 1 else 0)
  {
    var h, b := hist + [next], acc + [a];
    assert h[..|b|] == hist && b[..|acc|] == acc && h[|acc|] == hist[|acc|];
  }

  /** The state after the accesses acc. */
  ghost predicate Seen(sim: Sim, hist: seq<seq<Row>>, acc: seq<Access>, nLayer: nat, nExpert: nat, slots: nat) {
    && Lived(hist, acc, nLayer, nExpert, slots) && hist[|acc|] == sim.rows && sim.hit == Found(hist, acc)
    && Standing(sim, acc, nLayer, nExpert, slots)
  }

  /** Every layer holds a top set, by the uses so far. */
  ghost predicate Standing(sim: Sim, acc: seq<Access>, nLayer: nat, nExpert: nat, slots: nat) {
    && |sim.rows| == nLayer && sim.hit + sim.miss == |acc|
    && forall l :: 0 <= l < nLayer ==>
         |sim.rows[l].freq| == nExpert && TopSet(sim.rows[l], slots) && Counted(sim.rows[l], acc, l)
  }

  lemma {:induction false} CountedNext(row: Row, acc: seq<Access>, l: nat, a: Access)
    requires Counted(row, acc, l) && a.e < |row.freq|
    ensures a.l == l ==> Counted(row.(freq := row.freq[a.e := row.freq[a.e] + 1]), acc + [a], l)
    ensures a.l != l ==> Counted(row, acc + [a], l)
  {
    forall x: nat | x < |row.freq|
      ensures a.l == l ==> row.freq[a.e := row.freq[a.e] + 1][x] == Uses(acc + [a], l, x)
      ensures a.l != l ==> row.freq[x] == Uses(acc + [a], l, x)
    {
      UsesNext(acc, a, l, x);
    }
  }

  lemma {:induction false} StandingNext(sim: Sim, acc: seq<Access>, a: Access, nLayer: nat, nExpert: nat, slots: nat,
                                        hit: bool, row: Row)
    requires a.l < nLayer && a.e < nExpert && Standing(sim, acc, nLayer, nExpert, slots)
    requires TopSet(row, slots) && row.freq == sim.rows[a.l].freq[a.e := sim.rows[a.l].freq[a.e] + 1]
    ensures Standing(Sim(sim.rows[a.l := row], sim.hit + (if hit then 1 else 0), sim.miss + (if hit then 0 else 1)),
                     acc + [a], nLayer, nExpert, slots)
  {
    var rows := sim.rows[a.l := row];
    forall l | 0 <= l < nLayer ensures Counted(rows[l], acc + [a], l) {
      CountedNext(sim.rows[l], acc, l, a);
    }
  }

  /** The accesses of one token to one layer: row r of the trace, at positions base and up. */
  method LayerPass(sim: Sim, ghost hist0: seq<seq<Row>>, ids: seq<nat>, base: nat, ghost r: nat, l: nat, nLayer: nat, topK: nat,
                   nExpert: nat, slots: nat) returns (next: Sim, ghost hist: seq<seq<Row>>)
    requires l < nLayer && topK > 0 && base == r * topK && r % nLayer == l && base + topK <= |ids|
    requires Seen(sim, hist0, Trace(ids, nLayer, topK, nExpert, base), nLayer, nExpert, slots)
    ensures Seen(next, hist, Trace(ids, nLayer, topK, nExpert, base + topK), nLayer, nExpert, slots)
  {
    next, hist := sim, hist0;
    var k := 0;
    while k < topK
      invariant 0 <= k <= topK
      invariant Seen(next, hist, Trace(ids, nLayer, topK, nExpert, base + k), nLayer, nExpert, slots)
    {
      TraceNext(ids, nLayer, topK, nExpert, r, k, base);
      if ids[base + k] < nExpert {
        next, hist := AccessOne(next, hist, Trace(ids, nLayer, topK, nExpert, base + k), Access(l, ids[base + k]), nLayer, nExpert, slots);
      }
      k := k + 1;
    }
  }

  /** One access, counted as a hit or a miss. */
  method AccessOne(sim: Sim, ghost hist0: seq<seq<Row>>, ghost acc: seq<Access>, a: Access, ghost nLayer: nat, ghost nExpert: nat,
                   slots: nat) returns (next: Sim, ghost hist: seq<seq<Row>>)
    requires Seen(sim, hist0, acc, nLayer, nExpert, slots) && a.l < nLayer && a.e < nExpert
    ensures Seen(next, hist, acc + [a], nLayer, nExpert, slots)
  {
    var hit, row := AccessRow(sim.rows[a.l], slots, a.e);
    next := Sim(sim.rows[a.l := row], sim.hit + (if hit then 1 else 0), sim.miss + (if hit then 0 else 1));
    StandingNext(sim, acc, a, nLayer, nExpert, slots, hit, row);
    LivedNext(hist0, acc, a, next.rows, nLayer, nExpert, slots);
    hist := hist0 + [next.rows];
  }

  /** All layers of one token, whose rows start with r0. */
  method TokenPass(sim: Sim, ghost hist0: seq<seq<Row>>, ids: seq<nat>, base: nat, ghost r0: nat, nLayer: nat, topK: nat,
                   nExpert: nat, slots: nat) returns (next: Sim, ghost hist: seq<seq<Row>>, n: nat)
    requires nLayer > 0 && topK > 0 && base == r0 * topK && r0 % nLayer == 0 && (r0 + nLayer) * topK <= |ids| && base <= |ids|
    requires Seen(sim, hist0, Trace(ids, nLayer, topK, nExpert, base), nLayer, nExpert, slots)
    ensures n == (r0 + nLayer) * topK <= |ids|
    ensures Seen(next, hist, Trace(ids, nLayer, topK, nExpert, n), nLayer, nExpert, slots)
  {
    next, hist, n := sim, hist0, base;
    var l := 0;
    while l < nLayer
      invariant 0 <= l <= nLayer && n == (r0 + l) * topK <= |ids|
      invariant Seen(next, hist, Trace(ids, nLayer, topK, nExpert, n), nLayer, nExpert, slots)
    {
      RowOf(r0, l, nLayer, topK);
      next, hist := LayerPass(next, hist, ids, n, r0 + l, l, nLayer, topK, nExpert, slots);
      n := n + topK;
      l := l + 1;
    }
  }

  /** After any trace the simulator has hit exactly as often as the policy does, the counts are
      the uses, and every layer holds a top set. */
  method SimLfu(ids: seq<nat>, nLayer: nat, topK: nat, nToken: nat, nExpert: nat, slots: nat)
    returns (sim: Sim, ghost hist: seq<seq<Row>>)
    requires nLayer > 0 && topK > 0 && nToken * nLayer * topK <= |ids|
    ensures Standing(sim, Trace(ids, nLayer, topK, nExpert, nToken * nLayer * topK), nLayer, nExpert, slots)
    ensures HitsOf(sim, Trace(ids, nLayer, topK, nExpert, nToken * nLayer * topK), nLayer, nExpert, slots)
    ensures Lived(hist, Trace(ids, nLayer, topK, nExpert, nToken * nLayer * topK), nLayer, nExpert, slots)
  {
    sim, hist := Fresh(nLayer, nExpert, slots);
    var n := 0;
    ghost var r: nat := 0;
    var tok := 0;
    while tok < nToken
      invariant 0 <= tok <= nToken && r == tok * nLayer && n == r * topK <= |ids|
      invariant Seen(sim, hist, Trace(ids, nLayer, topK, nExpert, n), nLayer, nExpert, slots)
    {
      TokenRows(tok, nToken, nLayer, topK);
      sim, hist, n := TokenPass(sim, hist, ids, n, r, nLayer, topK, nExpert, slots);
      r, tok := r + nLayer, tok + 1;
    }
    SeenHits(sim, hist, Trace(ids, nLayer, topK, nExpert, n), nLayer, nExpert, slots);
  }

  /** Rows and hits are those of the policy, along any history of it, of which there is one. */
  ghost predicate HitsOf(sim: Sim, acc: seq<Access>, nLayer: nat, nExpert: nat, slots: nat) {
    forall h :: Lived(h, acc, nLayer, nExpert, slots) ==> sim.hit == Found(h, acc) && sim.rows == h[|acc|]
  }

  lemma {:induction false} SeenHits(sim: Sim, hist: seq<seq<Row>>, acc: seq<Access>, nLayer: nat, nExpert: nat, slots: nat)
    requires Seen(sim, hist, acc, nLayer, nExpert, slots)
    ensures HitsOf(sim, acc, nLayer, nExpert, slots)
  {
    forall h | Lived(h, acc, nLayer, nExpert, slots) ensures sim.hit == Found(h, acc) && sim.rows == h[|acc|] {
      HistoryUnique(hist, h, acc, nLayer, nExpert, slots);
    }
  }

  lemma {:induction false} NothingHeld(n: nat, held: seq<bool>)
    requires n <= |held| && forall x :: 0 <= x < |held| ==> !held[x]
    ensures Held(held, n) == 0
  {
    if n > 0 { NothingHeld(n - 1, held); }
  }

  method Fresh(nLayer: nat, nExpert: nat, slots: nat) returns (sim: Sim, ghost hist: seq<seq<Row>>)
    ensures Seen(sim, hist, [], nLayer, nExpert, slots)
  {
    var held := seq(nExpert, _ => false);
    var row := Row(seq(nExpert, _ => 0), held, 0);
    NothingHeld(nExpert, held);
    sim := Sim(seq(nLayer, _ => row), 0, 0);
    hist := [sim.rows];
  }

  /** A full cache's residents and the best of the rest: no expert outside was used more. */
  lemma {:induction false} OutsideNeverHotter(sim: Sim, acc: seq<Access>, nLayer: nat, nExpert: nat, slots: nat,
                                              l: nat, x: nat, y: nat)
    requires Standing(sim, acc, nLayer, nExpert, slots) && l < nLayer && x < nExpert && y < nExpert
    requires sim.rows[l].held[x] && !sim.rows[l].held[y]
    ensures Uses(acc, l, x) >= Uses(acc, l, y)
  {
    assert TopSet(sim.rows[l], slots) && Counted(sim.rows[l], acc, l);
  }
}
