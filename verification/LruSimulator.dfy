/** The naive LRU simulator of the policy study: one row of last-use times per layer, a full
    scan for every eviction. It hits exactly when the stack distance is below the slot count,
    so the one-pass curve of MissRatioCurve reports its hit count for every slot count. Asked
    for no slots at all it keeps the last expert nevertheless, and hits like one slot. */
module LruSimulator {
  import opened Seqs
  import opened StackDistance
  import opened PolicyTrace

  /** What a cache of this many slots holds of a recency stack. */
  function Top(s: seq<nat>, slots: nat): seq<nat> {
    if |s| <= slots then s else s[..slots]
  }

  /** The slots the simulation really uses: it evicts before it admits, so one at least. */
  function Kept(slots: nat): (k: nat)
    ensures k >= 1
  {
    if slots == 0 then 1 else slots
  }

  /** A layer's row holds the top of its recency stack and nothing else. The count of residents
      is theirs, except that without slots it stays at zero: it goes below zero with the first
      eviction, from an empty row, and up again. */
  ghost predicate Holds(row: seq<nat>, resident: int, clock: nat, s: seq<nat>, slots: nat) {
    RowOk(row, clock, Top(s, Kept(slots))) && resident == if slots == 0 then 0 else |Top(s, slots)|
  }

  // ---------------------------------------------------------------------------
  // Truncated stacks
  // ---------------------------------------------------------------------------

  lemma {:induction false} FindInTop(s: seq<nat>, slots: nat, e: nat)
    ensures e in Top(s, slots) <==> e in s && Find(s, e) < slots
    ensures e in Top(s, slots) ==> Find(Top(s, slots), e) == Find(s, e)
  {
    var p, q := Find(s, e), Find(Top(s, slots), e);
    if p < |s| && p < slots { assert Top(s, slots)[p] == e; }
    if q < |Top(s, slots)| { assert s[q] == e; }
  }

  lemma {:induction false} TopHit(s: seq<nat>, slots: nat, e: nat)
    requires e in Top(s, slots)
    ensures Top(Touch(s, e), slots) == Touch(Top(s, slots), e)
  {
    FindInTop(s, slots, e);
    EraseAt(s, e);
    if |s| > slots {
      EraseAt(s[..slots], e);
      CutAround(s, Find(s, e), slots);
      TakeCons(e, Erase(s, e), slots);
    }
  }

  lemma {:induction false} EraseAt(s: seq<nat>, e: nat)
    requires e in s
    ensures var i := Find(s, e);
      i < |s| && Erase(s, e) == s[..i] + s[i + 1..] && |Erase(s, e)| == |s| - 1
  {
  }

  lemma {:induction false} TakeCons(e: nat, s: seq<nat>, n: nat)
    requires 1 <= n <= |s| + 1
    ensures ([e] + s)[..n] == [e] + s[..n - 1]
  {
  }

  /** Removing position i commutes with cutting behind it. */
  lemma {:induction false} CutAround(s: seq<nat>, i: nat, n: nat)
    requires i < n <= |s|
    ensures (s[..i] + s[i + 1..])[..n - 1] == s[..n][..i] + s[..n][i + 1..]
  {
  }

  lemma {:induction false} TopMiss(s: seq<nat>, slots: nat, e: nat)
    requires slots >= 1 && e !in Top(s, slots)
    ensures Top(Touch(s, e), slots) == [e] + Top(s, slots - 1)
  {
    FindInTop(s, slots, e);
  }

  lemma {:induction false} TouchNew(top: seq<nat>, e: nat)
    requires e !in top
    ensures Touch(top, e) == [e] + top
  {
  }

  /** Clearing the last member of the top. */
  lemma {:induction false} RowEvicted(row: seq<nat>, clock: nat, top: seq<nat>)
    requires RowOk(row, clock, top) && |top| > 0
    ensures var n := |top| - 1;
      RowOk(row[top[n] := 0], clock, top[..n])
  {
    var n := |top| - 1;
    var r, t := row[top[n] := 0], top[..n];
    forall x | 0 <= x < |r| ensures r[x] <= clock && (r[x] > 0 <==> x in t) {
      if x in top && x != top[n] {
        var i :| 0 <= i < |top| && top[i] == x;
        assert t[i] == x;
      }
    }
  }

  // ---------------------------------------------------------------------------
  // The simulator
  // ---------------------------------------------------------------------------

  /** The resident with the earliest last use; expert 0 if there is no resident. */
  method LeastRecent(row: seq<nat>) returns (victim: nat)
    requires |row| > 0
    ensures victim < |row|
    ensures (exists x :: 0 <= x < |row| && row[x] > 0) ==> row[victim] > 0
    ensures forall x :: 0 <= x < |row| && row[x] > 0 ==> row[victim] <= row[x]
  {
    victim := 0;
    var best: Option<nat> := None;
    var x := 0;
    while x < |row|
      invariant 0 <= x <= |row|
      invariant best.Some? ==> victim < x && row[victim] == best.value > 0
      invariant best.None? ==> victim == 0 && forall k :: 0 <= k < x ==> row[k] == 0
      invariant best.Some? ==> forall k :: 0 <= k < x && row[k] > 0 ==> best.value <= row[k]
    {
      if row[x] > 0 && (best.None? || row[x] < best.value) { best, victim := Some(row[x]), x; }
      x := x + 1;
    }
  }

  /** The least recent resident is the last of the top. */
  lemma {:induction false} LeastIsLast(row: seq<nat>, clock: nat, top: seq<nat>, victim: nat)
    requires RowOk(row, clock, top) && |top| > 0
    requires victim < |row| && row[victim] > 0
    requires forall x :: 0 <= x < |row| && row[x] > 0 ==> row[victim] <= row[x]
    ensures victim == top[|top| - 1]
  {
    var last := top[|top| - 1];
    assert last in top && row[last] > 0;
    var i :| 0 <= i < |top| && top[i] == victim;
  }

  lemma {:induction false} SomeResident(row: seq<nat>, clock: nat, top: seq<nat>)
    requires RowOk(row, clock, top) && |top| > 0
    ensures exists x :: 0 <= x < |row| && row[x] > 0
  {
    assert top[0] in top && row[top[0]] > 0;
  }

  lemma {:induction false} TopShorter(s: seq<nat>, slots: nat)
    requires slots >= 1
    ensures |Top(s, slots)| >= slots ==> Top(s, slots)[..slots - 1] == Top(s, slots - 1) && |Top(s, slots)| == slots
    ensures |Top(s, slots)| < slots ==> Top(s, slots) == Top(s, slots - 1)
  {
  }

  /** Clearing the victim's cell leaves all but the last of the top. */
  lemma {:induction false} VictimCleared(row: seq<nat>, clock: nat, top: seq<nat>, victim: nat)
    requires RowOk(row, clock, top) && victim < |row|
    requires (exists x :: 0 <= x < |row| && row[x] > 0) ==> row[victim] > 0
    requires forall x :: 0 <= x < |row| && row[x] > 0 ==> row[victim] <= row[x]
    ensures RowOk(row[victim := 0], clock, if |top| > 0 then top[..|top| - 1] else [])
  {
    if |top| > 0 {
      SomeResident(row, clock, top);
      LeastIsLast(row, clock, top, victim);
      RowEvicted(row, clock, top);
    } else {
      assert row[victim := 0] == row;
    }
  }

  /** Make room if the layer is full: one place less than is kept is taken afterwards. */
  method EvictLru(row: seq<nat>, resident: int, slots: nat, ghost clock: nat, ghost s: seq<nat>)
    returns (row': seq<nat>, resident': int)
    requires |row| > 0 && Holds(row, resident, clock, s, slots)
    ensures |row'| == |row| && RowOk(row', clock, Top(s, Kept(slots) - 1))
    ensures resident' == if slots == 0 then -1 else |Top(s, slots - 1)|
  {
    TopShorter(s, Kept(slots));
    row', resident' := row, resident;
    if resident >= slots {
      var victim := LeastRecent(row);
      VictimCleared(row, clock, Top(s, Kept(slots)), victim);
      row', resident' := row[victim := 0], resident - 1;
    }
  }

  /** One access of one layer, at time now. */
  method AccessRow(row: seq<nat>, resident: int, now: nat, e: nat, slots: nat, ghost clock: nat, ghost s: seq<nat>)
    returns (hit: bool, row': seq<nat>, resident': int)
    requires e < |row| && now > clock && Holds(row, resident, clock, s, slots)
    ensures hit <==> e in s && Find(s, e) < Kept(slots)
    ensures |row'| == |row| && Holds(row', resident', now, Touch(s, e), slots)
  {
    FindInTop(s, Kept(slots), e);
    hit := row[e] > 0;
    if hit {
      HitHolds(row, resident, now, e, slots, clock, s);
      row', resident' := row[e := now], resident;
    } else {
      row', resident' := EvictLru(row, resident, slots, clock, s);
      MissHolds(row', resident', now, e, slots, clock, s);
      row', resident' := row'[e := now], resident' + 1;
    }
  }

  lemma {:induction false} HitHolds(row: seq<nat>, resident: int, now: nat, e: nat, slots: nat, clock: nat, s: seq<nat>)
    requires e < |row| && now > clock && Holds(row, resident, clock, s, slots) && e in Top(s, Kept(slots))
    ensures Holds(row[e := now], resident, now, Touch(s, e), slots)
  {
    var kept := Kept(slots);
    TopHit(s, kept, e);
    RowTouched(row, clock, Top(s, kept), e, now);
    EraseNoDup(Top(s, kept), e);
  }

  lemma {:induction false} MissHolds(row: seq<nat>, resident: int, now: nat, e: nat, slots: nat, clock: nat, s: seq<nat>)
    requires e < |row| && now > clock && RowOk(row, clock, Top(s, Kept(slots) - 1)) && e !in Top(s, Kept(slots))
    requires resident == if slots == 0 then -1 else |Top(s, slots - 1)|
    ensures Holds(row[e := now], resident + 1, now, Touch(s, e), slots)
  {
    var kept := Kept(slots);
    TopMiss(s, kept, e);
    FindInTop(s, kept, e);
    FindInTop(s, kept - 1, e);
    TouchNew(Top(s, kept - 1), e);
    RowTouched(row, clock, Top(s, kept - 1), e, now);
  }

  /** The rows of all layers after the accesses acc. */
  ghost predicate RowsHold(last: seq<seq<nat>>, resident: seq<int>, clock: nat, acc: seq<Access>, nExpert: nat,
                           slots: nat)
  {
    && |last| == |resident|
    && forall l :: 0 <= l < |last| ==>
         |last[l]| == nExpert && Holds(last[l], resident[l], clock, Stack(acc, l), slots)
  }

  lemma {:induction false} RowsNext(last: seq<seq<nat>>, resident: seq<int>, clock: nat, acc: seq<Access>,
                                    nExpert: nat, slots: nat, a: Access, row: seq<nat>, res: int)
    requires RowsHold(last, resident, clock, acc, nExpert, slots) && a.l < |last|
    requires |row| == nExpert && Holds(row, res, clock + 1, Touch(Stack(acc, a.l), a.e), slots)
    ensures RowsHold(last[a.l := row], resident[a.l := res], clock + 1, acc + [a], nExpert, slots)
  {
    forall l | 0 <= l < |last|
      ensures Holds(last[a.l := row][l], resident[a.l := res][l], clock + 1, Stack(acc + [a], l), slots)
    {
      StackNext(acc, a, l);
      if l != a.l { HoldsLater(last[l], resident[l], clock, Stack(acc, l), slots); }
    }
  }

  lemma {:induction false} HoldsLater(row: seq<nat>, resident: int, clock: nat, s: seq<nat>, slots: nat)
    requires Holds(row, resident, clock, s, slots)
    ensures Holds(row, resident, clock + 1, s, slots)
  {
    RowLater(row, clock, Top(s, Kept(slots)), clock + 1);
  }

  /** The tables of the simulation. */
  datatype Sim = Sim(last: seq<seq<nat>>, resident: seq<int>, clock: nat, hit: nat, miss: nat)

  /** The simulation has seen the accesses acc. */
  ghost predicate Seen(sim: Sim, acc: seq<Access>, nLayer: nat, nExpert: nat, slots: nat) {
    && |sim.last| == nLayer && RowsHold(sim.last, sim.resident, sim.clock, acc, nExpert, slots)
    && sim.hit == Hits(acc, Kept(slots)) && sim.hit + sim.miss == |acc|
  }

  /** The tables after an access that found h and left the row and count given. */
  function Update(sim: Sim, l: nat, h: bool, row: seq<nat>, res: int): Sim
    requires l < |sim.last| && l < |sim.resident|
  {
    Sim(sim.last[l := row], sim.resident[l := res], sim.clock + 1, sim.hit + (if h then 1 else 0),
        sim.miss + (if h then 0 else 1))
  }

  lemma {:induction false} TalliesNext(hit: nat, miss: nat, acc: seq<Access>, a: Access, slots: nat, h: bool)
    requires hit == Hits(acc, slots) && hit + miss == |acc| && (h <==> HitAt(acc, a, slots))
    ensures hit + (if h then 1 else 0) == Hits(acc + [a], slots)
    ensures hit + (if h then 1 else 0) + miss + (if h then 0 else 1) == |acc + [a]|
  {
    CountsNext(acc, a, slots);
  }

  method AccessOne(sim: Sim, l: nat, e: nat, nLayer: nat, nExpert: nat, slots: nat, ghost acc: seq<Access>)
    returns (next: Sim)
    requires l < nLayer && e < nExpert && Seen(sim, acc, nLayer, nExpert, slots)
    ensures Seen(next, acc + [Access(l, e)], nLayer, nExpert, slots)
  {
    var h, row, res := AccessRow(sim.last[l], sim.resident[l], sim.clock + 1, e, slots, sim.clock, Stack(acc, l));
    RowsNext(sim.last, sim.resident, sim.clock, acc, nExpert, slots, Access(l, e), row, res);
    TalliesNext(sim.hit, sim.miss, acc, Access(l, e), Kept(slots), h);
    next := Update(sim, l, h, row, res);
  }

  /** The accesses of one token to one layer: row r of the trace, at positions base and up. */
  method LayerPass(sim: Sim, ids: seq<nat>, base: nat, ghost r: nat, l: nat, nLayer: nat, topK: nat, nExpert: nat,
                   slots: nat) returns (next: Sim)
    requires l < nLayer && topK > 0 && base == r * topK && r % nLayer == l && base + topK <= |ids|
    requires Seen(sim, Trace(ids, nLayer, topK, nExpert, base), nLayer, nExpert, slots)
    ensures Seen(next, Trace(ids, nLayer, topK, nExpert, base + topK), nLayer, nExpert, slots)
  {
    next := sim;
    var k := 0;
    while k < topK
      invariant 0 <= k <= topK && Seen(next, Trace(ids, nLayer, topK, nExpert, base + k), nLayer, nExpert, slots)
    {
      TraceNext(ids, nLayer, topK, nExpert, r, k, base);
      next := AccessId(next, l, ids[base + k], nLayer, nExpert, slots, Trace(ids, nLayer, topK, nExpert, base + k));
      k := k + 1;
    }
  }

  /** One id of the trace; ids of no expert are skipped. */
  method AccessId(sim: Sim, l: nat, e: nat, nLayer: nat, nExpert: nat, slots: nat, ghost acc: seq<Access>) returns (next: Sim)
    requires l < nLayer && Seen(sim, acc, nLayer, nExpert, slots)
    ensures Seen(next, if e < nExpert then acc + [Access(l, e)] else acc, nLayer, nExpert, slots)
  {
    next := sim;
    if e < nExpert { next := AccessOne(sim, l, e, nLayer, nExpert, slots, acc); }
  }

  /** All layers of one token, whose rows start with r0. */
  method TokenPass(sim: Sim, ids: seq<nat>, base: nat, ghost r0: nat, nLayer: nat, topK: nat, nExpert: nat, slots: nat)
    returns (next: Sim, n: nat)
    requires nLayer > 0 && topK > 0 && base == r0 * topK && r0 % nLayer == 0 && (r0 + nLayer) * topK <= |ids| && base <= |ids|
    requires Seen(sim, Trace(ids, nLayer, topK, nExpert, base), nLayer, nExpert, slots)
    ensures n == (r0 + nLayer) * topK <= |ids|
    ensures Seen(next, Trace(ids, nLayer, topK, nExpert, n), nLayer, nExpert, slots)
  {
    next, n := sim, base;
    var l := 0;
    while l < nLayer
      invariant 0 <= l <= nLayer && n == (r0 + l) * topK <= |ids|
      invariant Seen(next, Trace(ids, nLayer, topK, nExpert, n), nLayer, nExpert, slots)
    {
      RowOf(r0, l, nLayer, topK);
      next := LayerPass(next, ids, n, r0 + l, l, nLayer, topK, nExpert, slots);
      n := n + topK;
      l := l + 1;
    }
  }

  /** The whole simulation hits exactly as often as the stack distances say. */
  method SimLru(ids: seq<nat>, nLayer: nat, topK: nat, nToken: nat, nExpert: nat, slots: nat)
    returns (hit: nat, miss: nat)
    requires nLayer > 0 && topK > 0 && nToken * nLayer * topK <= |ids|
    ensures var acc := Trace(ids, nLayer, topK, nExpert, nToken * nLayer * topK);
      hit == Hits(acc, if slots == 0 then 1 else slots) && hit + miss == |acc|
  {
    var sim := Fresh(nLayer, nExpert, slots);
    var n := 0;
    ghost var r: nat := 0;
    var tok := 0;
    while tok < nToken
      invariant 0 <= tok <= nToken && r == tok * nLayer && n == r * topK <= |ids|
      invariant Seen(sim, Trace(ids, nLayer, topK, nExpert, n), nLayer, nExpert, slots)
    {
      TokenRows(tok, nToken, nLayer, topK);
      sim, n := TokenPass(sim, ids, n, r, nLayer, topK, nExpert, slots);
      r, tok := r + nLayer, tok + 1;
    }
    hit, miss := sim.hit, sim.miss;
  }

  method Fresh(nLayer: nat, nExpert: nat, slots: nat) returns (sim: Sim)
    ensures Seen(sim, [], nLayer, nExpert, slots)
  {
    sim := Sim(seq(nLayer, _ => seq(nExpert, _ => 0)), seq(nLayer, _ => 0), 0, 0, 0);
  }
}
