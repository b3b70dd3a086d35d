/** The chords of the layers' hulls, as the allocator spends them, and the price argument:
    at any price per slot, no allocation is worth more than the chords steeper than the price. */
module HullSegments {
  import opened ConcaveHull

  /** n slots of a layer that each bring slope hits. */
  datatype Segment = Segment(slope: real, n: nat, layer: nat)

  function Pos(x: real): real { if x > 0.0 then x else 0.0 }

  /** What a chord brings beyond its price. */
  function Gain(price: real): Segment -> real {
    (s: Segment) => Worth(Pos(s.slope - price), s.n)
  }

  /** The same, for the chords of one layer. */
  function LayerGain(l: nat, price: real): Segment -> real {
    (s: Segment) => if s.layer == l then Worth(Pos(s.slope - price), s.n) else 0.0
  }

  /** The width of a layer's chords. */
  function Width(l: nat): Segment -> real {
    (s: Segment) => if s.layer == l then s.n as real else 0.0
  }

  function Total(segs: seq<Segment>, f: Segment -> real): real {
    if |segs| == 0 then 0.0 else Total(segs[..|segs| - 1], f) + f(segs[|segs| - 1])
  }

  lemma {:induction false} TotalNext(segs: seq<Segment>, s: Segment, f: Segment -> real)
    ensures Total(segs + [s], f) == Total(segs, f) + f(s)
  {
    assert (segs + [s])[..|segs|] == segs;
  }

  lemma {:induction false} TotalAppend(a: seq<Segment>, b: seq<Segment>, f: Segment -> real)
    ensures Total(a + b, f) == Total(a, f) + Total(b, f)
  {
    if |b| == 0 {
      assert a + b == a;
    } else {
      var n := |b| - 1;
      TotalAppend(a, b[..n], f);
      assert (a + b)[..|a| + n] == a + b[..n];
    }
  }

  lemma {:induction false} TotalRemove(b: seq<Segment>, i: nat, f: Segment -> real)
    requires i < |b|
    ensures Total(b, f) == Total(b[..i] + b[i + 1..], f) + f(b[i])
  {
    assert b == b[..i] + [b[i]] + b[i + 1..];
    TotalAppend(b[..i], b[i + 1..], f);
    TotalNext(b[..i], b[i], f);
    TotalAppend(b[..i] + [b[i]], b[i + 1..], f);
  }

  lemma {:induction false} SameRest(a: seq<Segment>, b: seq<Segment>, i: nat)
    requires multiset(a) == multiset(b) && |a| > 0 && i < |b| && b[i] == a[|a| - 1]
    ensures multiset(a[..|a| - 1]) == multiset(b[..i] + b[i + 1..])
  {
    var x := b[i];
    assert a == a[..|a| - 1] + [x];
    assert b == b[..i] + [x] + b[i + 1..];
    assert multiset(a) == multiset(a[..|a| - 1]) + multiset{x};
    assert multiset(b) == multiset(b[..i] + b[i + 1..]) + multiset{x};
    assert multiset(a[..|a| - 1]) == multiset(a) - multiset{x};
  }

  /** Totals do not depend on the order. */
  lemma {:induction false} TotalPermuted(a: seq<Segment>, b: seq<Segment>, f: Segment -> real)
    requires multiset(a) == multiset(b)
    ensures Total(a, f) == Total(b, f)
  {
    if |a| > 0 {
      var n := |a| - 1;
      assert a[n] in multiset(b);
      var i :| 0 <= i < |b| && b[i] == a[n];
      TotalRemove(b, i, f);
      SameRest(a, b, i);
      TotalPermuted(a[..n], b[..i] + b[i + 1..], f);
    } else {
      assert |multiset(b)| == 0;
    }
  }

  // ---------------------------------------------------------------------------
  // One layer
  // ---------------------------------------------------------------------------

  /** A chord, unless it brings nothing. */
  function Chord(V: seq<real>, a: nat, b: nat, l: nat): seq<Segment>
    requires a < b < |V|
  {
    if Slope(V, a, b) > 0.0 then [Segment(Slope(V, a, b), b - a, l)] else []
  }

  /** The chords of a hull, in order. */
  function Segments(V: seq<real>, hull: seq<nat>, l: nat): seq<Segment>
    requires Knots(V, hull)
  {
    var m := |hull| - 1;
    if m == 0 then [] else Segments(V, hull[..m], l) + Chord(V, hull[m - 1], hull[m], l)
  }

  /** What a chord brings beyond its price, even if that is nothing. */
  function ChordGain(V: seq<real>, a: nat, b: nat, price: real): real
    requires a < b < |V|
  {
    Worth(Pos(Slope(V, a, b) - price), b - a)
  }

  lemma {:induction false} WorthZero(n: nat)
    ensures Worth(0.0, n) == 0.0
  {
    if n > 0 { WorthZero(n - 1); }
  }

  lemma {:induction false} ChordTotal(V: seq<real>, a: nat, b: nat, l: nat, price: real)
    requires a < b < |V| && price >= 0.0
    ensures Total(Chord(V, a, b, l), Gain(price)) == ChordGain(V, a, b, price)
  {
    var c := Chord(V, a, b, l);
    WorthZero(b - a);
    if |c| == 1 { assert c[..0] == []; }
  }

  /** What the chords of a hull bring beyond their price. */
  function HullGain(V: seq<real>, hull: seq<nat>, price: real): real
    requires Knots(V, hull)
  {
    var m := |hull| - 1;
    if m == 0 then 0.0 else HullGain(V, hull[..m], price) + ChordGain(V, hull[m - 1], hull[m], price)
  }

  lemma {:induction false} SegmentsTotal(V: seq<real>, hull: seq<nat>, l: nat, price: real)
    requires Knots(V, hull) && price >= 0.0
    ensures Total(Segments(V, hull, l), Gain(price)) == HullGain(V, hull, price)
  {
    var m := |hull| - 1;
    if m > 0 {
      SegmentsTotal(V, hull[..m], l, price);
      TotalAppend(Segments(V, hull[..m], l), Chord(V, hull[m - 1], hull[m], l), Gain(price));
      ChordTotal(V, hull[m - 1], hull[m], l, price);
    }
  }

  /** A slope is at most the price plus what it exceeds it by. */
  lemma {:induction false} PosBound(s: real, price: real, x: nat, n: nat)
    requires x <= n
    ensures Worth(s, x) <= Worth(price, x) + Worth(Pos(s - price), n)
  {
    WorthMono(s, price + Pos(s - price), x);
    WorthSum(price, Pos(s - price), x);
    WorthMore(Pos(s - price), x, n);
  }

  /** At any price, what x slots bring is at most their cost plus the gain of the steeper chords. */
  lemma {:induction false} LayerBound(V: seq<real>, hull: seq<nat>, x: nat, price: real)
    requires Knots(V, hull) && x <= Last(hull) && price >= 0.0
    ensures HullAt(V, hull, x) <= V[0] + Worth(price, x) + HullGain(V, hull, price)
  {
    var m := |hull| - 1;
    if m > 0 {
      var a, b := hull[m - 1], hull[m];
      if x >= a {
        LayerBound(V, hull[..m], a, price);
        HullEnds(V, hull[..m]);
        PosBound(Slope(V, a, b), price, x - a, b - a);
        WorthSplit(price, a, x - a);
      } else {
        LayerBound(V, hull[..m], x, price);
        WorthMore(Pos(Slope(V, a, b) - price), 0, b - a);
      }
    }
  }

  /** Every chord is worth the price. */
  predicate SteeperThan(V: seq<real>, hull: seq<nat>, price: real)
    requires Knots(V, hull)
  {
    var m := |hull| - 1;
    m > 0 ==> SteeperThan(V, hull[..m], price) && Slope(V, hull[m - 1], hull[m]) >= price
  }

  /** If every chord is worth the price, the whole hull is cost plus gain. */
  lemma {:induction false} WholeHull(V: seq<real>, hull: seq<nat>, price: real)
    requires Knots(V, hull) && price >= 0.0 && SteeperThan(V, hull, price)
    ensures V[Last(hull)] == V[0] + Worth(price, Last(hull)) + HullGain(V, hull, price)
  {
    var m := |hull| - 1;
    if m > 0 {
      var a, b := hull[m - 1], hull[m];
      WholeHull(V, hull[..m], price);
      LineEnds(V, a, b);
      WorthSplit(price, a, b - a);
      WorthSum(price, Slope(V, a, b) - price, b - a);
    }
  }

  /** Strictly falling chords are all steeper than the last. */
  lemma {:induction false} LastIsFlattest(V: seq<real>, hull: seq<nat>, price: real)
    requires Knots(V, hull) && Falling(V, hull)
    requires |hull| >= 2 ==> Slope(V, hull[|hull| - 2], hull[|hull| - 1]) >= price
    ensures SteeperThan(V, hull, price)
  {
    var m := |hull| - 1;
    if m > 0 { LastIsFlattest(V, hull[..m], price); }
  }

  predicate Rising(V: seq<real>) {
    forall i, j :: 0 <= i <= j < |V| ==> V[i] <= V[j]
  }

  lemma {:induction false} SlopeNonNegative(V: seq<real>, a: nat, b: nat)
    requires Rising(V) && a < b < |V|
    ensures Slope(V, a, b) >= 0.0
  {
    SlopeWorth(V, a, b);
    WorthZero(b - a);
    if Slope(V, a, b) < 0.0 { WorthStrict(Slope(V, a, b), 0.0, b - a); }
  }

  /** For every x some price makes the bound an equality: the slope at x. */
  lemma {:induction false} LayerTight(V: seq<real>, hull: seq<nat>, x: nat) returns (price: real)
    requires Knots(V, hull) && Falling(V, hull) && Rising(V) && x <= Last(hull)
    ensures price >= 0.0
    ensures |hull| >= 2 ==> price >= Slope(V, hull[|hull| - 2], hull[|hull| - 1])
    ensures HullAt(V, hull, x) == V[0] + Worth(price, x) + HullGain(V, hull, price)
  {
    var m := |hull| - 1;
    price := 0.0;
    if m > 0 {
      var a, b := hull[m - 1], hull[m];
      var s := Slope(V, a, b);
      SlopeNonNegative(V, a, b);
      if x >= a {
        price := s;
        LastIsFlattest(V, hull[..m], s);
        WholeHull(V, hull[..m], s);
        WorthSplit(s, a, x - a);
      } else {
        price := LayerTight(V, hull[..m], x);
      }
      WorthZero(b - a);
    } else {
      WorthZero(x);
    }
  }

  // ---------------------------------------------------------------------------
  // The segments of a layer
  // ---------------------------------------------------------------------------

  /** Segments of layer l, each bringing something. */
  predicate Own(segs: seq<Segment>, l: nat) {
    forall i :: 0 <= i < |segs| ==> segs[i].layer == l && segs[i].slope > 0.0
  }

  lemma {:induction false} SegmentsOwn(V: seq<real>, hull: seq<nat>, l: nat)
    requires Knots(V, hull)
    ensures Own(Segments(V, hull, l), l)
  {
    if |hull| > 1 { SegmentsOwn(V, hull[..|hull| - 1], l); }
  }

  /** A layer's own segments count in full for it and not at all for another. */
  lemma {:induction false} OwnTotal(segs: seq<Segment>, k: nat, l: nat, price: real)
    requires Own(segs, k)
    ensures Total(segs, LayerGain(l, price)) == (if k == l then Total(segs, Gain(price)) else 0.0)
    ensures k != l ==> Total(segs, Width(l)) == 0.0
  {
    if |segs| > 0 {
      OwnTotal(segs[..|segs| - 1], k, l, price);
      assert segs[|segs| - 1].layer == k;
    }
  }

  /** The chords of a hull are no wider than the curve. */
  lemma {:induction false} SegmentsWidth(V: seq<real>, hull: seq<nat>, l: nat)
    requires Knots(V, hull)
    ensures Total(Segments(V, hull, l), Width(l)) <= Last(hull) as real
  {
    var m := |hull| - 1;
    if m > 0 {
      SegmentsWidth(V, hull[..m], l);
      var c := Chord(V, hull[m - 1], hull[m], l);
      TotalAppend(Segments(V, hull[..m], l), c, Width(l));
      if |c| == 1 { assert c[..0] == []; }
    }
  }
}
