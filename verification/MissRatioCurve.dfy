/** The one-pass recorder of reuse distances, the curve it reports, and the naive LRU
    simulator the curve must agree with. */
module MissRatioCurve {
  import opened Seqs
  import opened StackDistance

  /** Accesses of existing layers and experts. */
  predicate InRange(acc: seq<Access>, nLayer: nat, nExpert: nat) {
    forall i :: 0 <= i < |acc| ==> acc[i].l < nLayer && acc[i].e < nExpert
  }

  lemma {:induction false} InRangeNext(acc: seq<Access>, a: Access, nLayer: nat, nExpert: nat)
    requires InRange(acc, nLayer, nExpert) && a.l < nLayer && a.e < nExpert
    ensures InRange(acc + [a], nLayer, nExpert)
  {
  }

  /** Every layer's last-use times spell out its recency stack. */
  ghost predicate RowsFor(last: seq<seq<nat>>, clock: seq<nat>, acc: seq<Access>, nLayer: nat, nExpert: nat) {
    && |last| == |clock| == nLayer
    && forall l :: 0 <= l < nLayer ==> |last[l]| == nExpert && RowOk(last[l], clock[l], Stack(acc, l))
  }

  /** Every layer's histogram is that of its own accesses taken alone. */
  ghost predicate LayersFor(histL: seq<seq<nat>>, totL: seq<nat>, acc: seq<Access>, nLayer: nat, nExpert: nat) {
    && |histL| == |totL| == nLayer
    && forall l :: 0 <= l < nLayer ==> histL[l] == Histogram(OfLayer(acc, l), nExpert) && totL[l] == |OfLayer(acc, l)|
  }

  /** The counts over all layers. */
  ghost predicate TotalsFor(hist: seq<nat>, total: nat, cold: nat, acc: seq<Access>, nExpert: nat) {
    hist == Histogram(acc, nExpert) && total == |acc| && cold == Cold(acc)
  }

  class MrcRecorder {
    const nLayer: nat
    const nExpert: nat

    var on: bool
    var last: seq<seq<nat>>     // [layer][expert] time of the last use
    var clock: seq<nat>         // [layer]
    var hist: seq<nat>          // distances, all layers
    var histL: seq<seq<nat>>    // distances, per layer
    var totL: seq<nat>
    var total: nat
    var cold: nat

    ghost var acc: seq<Access>  // everything recorded so far

    ghost predicate Valid()
      reads this
    {
      && InRange(acc, nLayer, nExpert)
      && RowsFor(last, clock, acc, nLayer, nExpert)
      && LayersFor(histL, totL, acc, nLayer, nExpert)
      && TotalsFor(hist, total, cold, acc, nExpert)
    }

    constructor (nLayer: nat, nExpert: nat)
      ensures Valid() && on && acc == [] && this.nLayer == nLayer && this.nExpert == nExpert
    {
      this.nLayer, this.nExpert := nLayer, nExpert;
      on := true;
      last := seq(nLayer, _ => seq(nExpert, _ => 0));
      clock := seq(nLayer, _ => 0);
      hist := seq(nExpert, _ => 0);
      histL := seq(nLayer, _ => seq(nExpert, _ => 0));
      totL := seq(nLayer, _ => 0);
      total, cold, acc := 0, 0, [];
    }

    /** The reuse distance of the next access, None for a first use. */
    method Measure(l: nat, e: nat) returns (d: Option<nat>)
      requires l < nLayer && e < nExpert && RowsFor(last, clock, acc, nLayer, nExpert)
      ensures d == Distance(acc, Access(l, e))
    {
      var t := last[l][e];
      if t == 0 { return None; }
      var r := CountNewer(last[l], t);
      NewerIsPosition(last[l], clock[l], Stack(acc, l), e);
      d := Some(r);
    }

    /** Count an access at distance d. */
    method Count(l: nat, d: Option<nat>)
      requires l < |histL| && l < |totL| && |histL[l]| == |hist|
      modifies `total, `totL, `cold, `hist, `histL
      ensures total == old(total) + 1 && totL == old(totL)[l := old(totL)[l] + 1]
      ensures cold == old(cold) + (if d == None then 1 else 0)
      ensures hist == Bumped(old(hist), d) && histL == old(histL)[l := Bumped(old(histL)[l], d)]
    {
      total := total + 1;
      totL := totL[l := totL[l] + 1];
      if d == None {
        cold := cold + 1;
      } else if d.value < |hist| {
        hist := hist[d.value := hist[d.value] + 1];
        histL := histL[l := histL[l][d.value := histL[l][d.value] + 1]];
      }
    }

    /** e is the latest use of its layer. */
    method Stamp(l: nat, e: nat)
      requires l < |last| && l < |clock| && e < |last[l]|
      modifies `clock, `last
      ensures clock == old(clock)[l := old(clock)[l] + 1]
      ensures last == old(last)[l := old(last)[l][e := old(clock)[l] + 1]]
    {
      clock := clock[l := clock[l] + 1];
      last := last[l := last[l][e := clock[l]]];
    }

    /** Enter a's distance into the counts. */
    method RecordDistance(a: Access)
      requires a.l < nLayer && a.e < nExpert && RowsFor(last, clock, acc, nLayer, nExpert)
      requires LayersFor(histL, totL, acc, nLayer, nExpert) && TotalsFor(hist, total, cold, acc, nExpert)
      modifies `total, `totL, `cold, `hist, `histL
      ensures LayersFor(histL, totL, acc + [a], nLayer, nExpert) && TotalsFor(hist, total, cold, acc + [a], nExpert)
    {
      var d := Measure(a.l, a.e);
      Layers(histL, totL, acc, a, nLayer, nExpert);
      Totals(hist, total, cold, acc, a, nExpert);
      Count(a.l, d);
    }

    /** Enter the time of a. */
    method RecordTime(a: Access)
      requires a.l < nLayer && a.e < nExpert && RowsFor(last, clock, acc, nLayer, nExpert)
      modifies `clock, `last
      ensures RowsFor(last, clock, acc + [a], nLayer, nExpert)
    {
      Rows(last, clock, acc, a, nLayer, nExpert);
      Stamp(a.l, a.e);
    }

    /** Record one access; accesses outside the known layers and experts are ignored. */
    method Touch(il: int, e: nat)
      requires Valid()
      modifies this
      ensures Valid() && on == old(on)
      ensures acc == (if on && 0 <= il < nLayer && e < nExpert then old(acc) + [Access(il, e)] else old(acc))
    {
      if !on || il < 0 || il >= nLayer || e >= nExpert { return; }
      InRangeNext(acc, Access(il, e), nLayer, nExpert);
      RecordDistance(Access(il, e));
      RecordTime(Access(il, e));
      acc := acc + [Access(il, e)];
    }

    /** hit[c]: the fraction of accesses that hit with c slots per layer. */
    method Curve() returns (hit: seq<real>)
      requires Valid() && total > 0
      ensures |hit| == nExpert + 1
      ensures forall c :: 0 <= c <= nExpert ==> hit[c] == Hits(acc, c) as real / |acc| as real
    {
      HistogramIsHits(acc, 0);
      hit := [0.0];
      var sum := 0;
      var c := 0;
      while c < |hist| && c < nExpert
        invariant 0 <= c <= nExpert && |hit| == c + 1 && sum == Hits(acc, c)
        invariant forall k :: 0 <= k <= c ==> hit[k] == Hits(acc, k) as real / |acc| as real
      {
        HistogramIsHits(acc, c);
        HistogramIsHits(acc, c + 1);
        assert Histogram(acc, c + 1)[..c] == Histogram(acc, c);
        sum := sum + hist[c];
        hit := hit + [sum as real / total as real];
        c := c + 1;
      }
    }
  }

  /** The rows after one more access. */
  lemma {:induction false} Rows(last: seq<seq<nat>>, clock: seq<nat>, acc: seq<Access>, a: Access, nLayer: nat,
                                nExpert: nat)
    requires RowsFor(last, clock, acc, nLayer, nExpert) && a.l < nLayer && a.e < nExpert
    ensures var now := clock[a.l] + 1;
      RowsFor(last[a.l := last[a.l][a.e := now]], clock[a.l := now], acc + [a], nLayer, nExpert)
  {
    var now := clock[a.l] + 1;
    var last', clock' := last[a.l := last[a.l][a.e := now]], clock[a.l := now];
    forall l | 0 <= l < nLayer
      ensures |last'[l]| == nExpert && RowOk(last'[l], clock'[l], Stack(acc + [a], l))
    {
      StackNext(acc, a, l);
      if l == a.l { RowTouched(last[l], clock[l], Stack(acc, l), a.e, now); }
    }
  }

  /** The totals after one more access. */
  lemma {:induction false} Totals(hist: seq<nat>, total: nat, cold: nat, acc: seq<Access>, a: Access, nExpert: nat)
    requires TotalsFor(hist, total, cold, acc, nExpert)
    ensures var d := Distance(acc, a);
      TotalsFor(Bumped(hist, d), total + 1, cold + (if d == None then 1 else 0), acc + [a], nExpert)
  {
    HistogramNext(acc, a, nExpert);
    CountsNext(acc, a, 0);
  }

  /** The per-layer counts after one more access. */
  lemma {:induction false} Layers(histL: seq<seq<nat>>, totL: seq<nat>, acc: seq<Access>, a: Access, nLayer: nat,
                                  nExpert: nat)
    requires LayersFor(histL, totL, acc, nLayer, nExpert) && a.l < nLayer
    ensures LayersFor(histL[a.l := Bumped(histL[a.l], Distance(acc, a))], totL[a.l := totL[a.l] + 1],
                      acc + [a], nLayer, nExpert)
  {
    CountsNext(acc, a, 0);
    LayerHistogramNext(acc, a, nExpert);
  }

  /** Nothing is lost: every access is either cold or in the histogram. */
  lemma {:induction false} Conserved(hist: seq<nat>, total: nat, cold: nat, acc: seq<Access>, nLayer: nat, nExpert: nat)
    requires TotalsFor(hist, total, cold, acc, nExpert) && InRange(acc, nLayer, nExpert)
    ensures cold + Sum(hist) == total
  {
    HistogramIsHits(acc, nExpert);
    ColdAndHits(acc, nExpert);
  }

  /** Reuse distance: entries used more recently than t. */
  method CountNewer(row: seq<nat>, t: nat) returns (r: nat)
    ensures r == Newer(row, t, |row|)
  {
    r := 0;
    var x := 0;
    while x < |row|
      invariant 0 <= x <= |row| && r == Newer(row, t, x)
    {
      if row[x] > t { r := r + 1; }
      x := x + 1;
    }
  }
}
